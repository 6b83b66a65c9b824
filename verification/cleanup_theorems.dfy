/** The guarantees of document cleanup, for every run of the protocol. */
module CleanupTheorems {
  import opened Transactions
  import opened Protocol
  import opened CleanupInvariants

  // ------------------------------------------------------------------- runs

  /** The state after the first `i` steps. */
  function At(s: State, steps: seq<Step>, i: nat): State
    requires i <= |steps|
  {
    Execute(s, steps[..i])
  }

  lemma OneMore(s: State, steps: seq<Step>, i: nat)
    requires i < |steps|
    ensures At(s, steps, i + 1) == Next(At(s, steps, i), steps[i])
  {
    assert steps[..i + 1][..i] == steps[..i];
  }

  lemma {:induction false} RunsKeepCleanup(s: State, steps: seq<Step>, i: nat)
    requires Initial(s) && i <= |steps|
    ensures CleanupInvariant(At(s, steps, i))
  {
    if i > 0 {
      RunsKeepCleanup(s, steps, i - 1);
      OneMore(s, steps, i - 1);
      StepKeepsCleanup(At(s, steps, i - 1), steps[i - 1]);
    }
  }

  lemma MutualExclusion(s: State, steps: seq<Step>, v: Id, w: Id, e: Id)
    requires Initial(s)
    requires Holds(Execute(s, steps), v, e) && Holds(Execute(s, steps), w, e)
    ensures v == w
  {
    RunsKeepCleanup(s, steps, |steps|);
    assert steps[..|steps|] == steps;
  }

  /** The recorded stages of every event are the first few of the fixed order, none twice. */
  lemma StagesAreAPrefix(s: State, steps: seq<Step>, e: Id)
    requires Initial(s) && e in Execute(s, steps).db.events
    ensures var stages := Execute(s, steps).db.events[e].completed;
            && |stages| <= 4 && stages == CLEANUP_STAGES[..|stages|]
            && forall i, j | 0 <= i < j < |stages| :: stages[i] != stages[j]
  {
    RunsKeepCleanup(s, steps, |steps|);
    assert steps[..|steps|] == steps;
    assert EventOk(Execute(s, steps).db, Execute(s, steps).db.events[e]);
  }

  // ------------------------------------------- a recorded stage stays recorded

  ghost predicate EventsAge(db: Db, db': Db) {
    forall e | e in db.events ::
      && e in db'.events
      && db.events[e].completed <= db'.events[e].completed
      && db.events[e].document == db'.events[e].document
  }

  /** What no step ever undoes. */
  ghost predicate Ages(s: State, s': State) {
    DocumentsAge(s.db, s'.db) && EventsAge(s.db, s'.db) && s.succeeded <= s'.succeeded
  }

  lemma RequestAges(db: Db, settings: Settings, d: Id, tenant: Id, freshId: Id)
    ensures DocumentsAge(db, After(db, RequestDeletion(db, settings, d, tenant, freshId)))
    ensures EventsAge(db, After(db, RequestDeletion(db, settings, d, tenant, freshId)))
  {
  }

  lemma StartAges(db: Db, e: Id, tenant: Id)
    ensures DocumentsAge(db, After(db, MarkStarted(db, e, tenant)))
    ensures EventsAge(db, After(db, MarkStarted(db, e, tenant)))
  {
  }

  lemma RecordAges(db: Db, e: Id, tenant: Id, stage: Stage)
    ensures DocumentsAge(db, After(db, RecordStage(db, e, tenant, stage)))
    ensures EventsAge(db, After(db, RecordStage(db, e, tenant, stage)))
  {
  }

  lemma FinalizeAges(db: Db, e: Id, tenant: Id)
    ensures DocumentsAge(db, After(db, FinalizeDeletion(db, e, tenant)))
    ensures EventsAge(db, After(db, FinalizeDeletion(db, e, tenant)))
  {
  }

  lemma FailureAgesDocuments(db: Db, settings: Settings, e: Id, tenant: Id, now: int, error: string)
    ensures DocumentsAge(db, After(db, MarkFailure(db, settings, e, tenant, now, error)))
  {
  }

  lemma FailureAgesEvents(db: Db, settings: Settings, e: Id, tenant: Id, now: int, error: string)
    ensures EventsAge(db, After(db, MarkFailure(db, settings, e, tenant, now, error)))
  {
  }

  lemma RetryAges(db: Db, e: Id, tenant: Id)
    ensures DocumentsAge(db, After(db, RetryEvent(db, e, tenant)))
    ensures EventsAge(db, After(db, RetryEvent(db, e, tenant)))
  {
  }

  lemma SaveAges(s: State, w: Id, ok: bool)
    ensures Ages(s, Next(s, Save(w, ok)))
  {
    if WorkerAt(s, w).Working? {
      var worker := WorkerAt(s, w);
      RecordAges(s.db, worker.eventId, worker.tenant, CLEANUP_STAGES[if worker.next < 4 then worker.next else 0]);
      FinalizeAges(s.db, worker.eventId, worker.tenant);
    }
  }

  lemma StepAges(s: State, step: Step)
    ensures Ages(s, Next(s, step))
  {
    match step
    case Request(d, t, id) => RequestAges(s.db, s.settings, d, t, id);
    case Retry(e, t) => RetryAges(s.db, e, t);
    case Register(_, _, _, _, _) => RegistryStepsAge(s, step);
    case Activate(_, _, _) => RegistryStepsAge(s, step);
    case RemoveDocument(_) => RegistryStepsAge(s, step);
    case RemoveKnowledgeBase(_) => RegistryStepsAge(s, step);
    case Acquire(w) =>
      if WorkerAt(s, w).Checked? {
        StartAges(s.db, WorkerAt(s, w).eventId, WorkerAt(s, w).tenant);
      }
    case Save(w, ok) => SaveAges(s, w, ok);
    case Fail(w, _, now, error) =>
      if WorkerAt(s, w).Working? {
        FailureAgesDocuments(s.db, s.settings, WorkerAt(s, w).eventId, WorkerAt(s, w).tenant, now, error);
        FailureAgesEvents(s.db, s.settings, WorkerAt(s, w).eventId, WorkerAt(s, w).tenant, now, error);
      }
    case _ =>
  }

  lemma AgesTransitive(a: State, b: State, c: State)
    requires Ages(a, b) && Ages(b, c)
    ensures Ages(a, c)
  {
  }

  lemma {:induction false} RunsAge(s: State, steps: seq<Step>, i: nat, j: nat)
    requires i <= j <= |steps|
    ensures Ages(At(s, steps, i), At(s, steps, j))
    decreases j
  {
    if i < j {
      RunsAge(s, steps, i, j - 1);
      OneMore(s, steps, j - 1);
      StepAges(At(s, steps, j - 1), steps[j - 1]);
      AgesTransitive(At(s, steps, i), At(s, steps, j - 1), At(s, steps, j));
    }
  }

  predicate CallsHandler(s: State, step: Step, e: Id, stage: Stage) {
    step.RunHandler? &&
    var worker := WorkerAt(s, step.worker);
    HandlerPending(worker) && worker.eventId == e && CLEANUP_STAGES[worker.next] == stage
  }

  /** Once a stage is recorded no worker calls its handler for that event again. */
  lemma RecordedStageNeverReruns(s: State, steps: seq<Step>, i: nat, j: nat, e: Id, stage: Stage)
    requires Initial(s) && i <= j < |steps|
    requires e in At(s, steps, i).db.events && stage in At(s, steps, i).db.events[e].completed
    ensures !CallsHandler(At(s, steps, j), steps[j], e, stage)
  {
    RunsAge(s, steps, i, j);
    RunsKeepCleanup(s, steps, j);
    var now := At(s, steps, j);
    if CallsHandler(now, steps[j], e, stage) {
      var worker := WorkerAt(now, steps[j].worker);
      assert WorkerOk(now, worker);
      PrefixMembers(worker.snapshot, worker.next);
      PrefixMembers(now.db.events[e].completed, worker.next);
      assert false;
    }
  }

  // ------------------------------------- leaving ACTIVE, one event per document

  /** A document that left ACTIVE never returns, and no later activation has any effect. */
  lemma LeavingActiveIsFinal(s: State, steps: seq<Step>, i: nat, j: nat, d: Id)
    requires Initial(s) && i <= j < |steps|
    requires d in At(s, steps, i).db.documents && At(s, steps, i).db.documents[d].lifecycle != Active
    ensures d in At(s, steps, j).db.documents && At(s, steps, j).db.documents[d].lifecycle != Active
    ensures steps[j].Activate? && steps[j].documentId == d ==> At(s, steps, j + 1) == At(s, steps, j)
  {
    RunsAge(s, steps, i, j);
    OneMore(s, steps, j);
  }

  /** A second request for the same document, whoever makes it, finds the first event and changes nothing. */
  lemma RepeatedRequestsShareOneEvent(s: State, steps: seq<Step>, e: Id, freshId: Id)
    requires Initial(s) && e in Execute(s, steps).db.events
    ensures var now := Execute(s, steps);
            var event := now.db.events[e];
            && Next(now, Request(event.document, event.tenant, freshId)) == now
            && event.document in now.db.documents
            && now.db.documents[event.document].lifecycle != Active
            && forall f | f in now.db.events :: IsDeletionEvent(now.db, event.document, event.tenant, f) <==> f == e
  {
    RunsKeepCleanup(s, steps, |steps|);
    assert steps[..|steps|] == steps;
    var now := Execute(s, steps);
    var event := now.db.events[e];
    assert EventOk(now.db, event);
    assert IsDeletionEvent(now.db, event.document, event.tenant, e);
  }
}
