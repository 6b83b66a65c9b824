/** What everybody else can do to an event while one worker has it, or waits for it. */
module CleanupInterference {
  import opened Wrappers
  import opened Transactions
  import opened Protocol
  import opened CleanupInvariants

  predicate ByWorker(step: Step, w: Id) {
    match step
    case Request(_, _, _) => false
    case Retry(_, _) => false
    case Register(_, _, _, _, _) => false
    case Activate(_, _, _) => false
    case RemoveDocument(_) => false
    case RemoveKnowledgeBase(_) => false
    case _ => step.worker == w
  }

  /** No other worker holds the event or is about to acquire it. */
  ghost predicate Alone(s: State, w: Id, e: Id) {
    forall v | v != w :: !Holds(s, v, e) && !(WorkerAt(s, v).Checked? && WorkerAt(s, v).eventId == e)
  }

  predicate LooksAt(step: Step, e: Id) {
    step.Look? && step.eventId == e
  }

  /** Steps of everybody but `w`, none of which is another worker turning to the event. */
  ghost predicate Bystanders(steps: seq<Step>, w: Id, e: Id) {
    forall step | step in steps :: !ByWorker(step, w) && !LooksAt(step, e)
  }

  predicate IsRetryOf(step: Step, e: Id, tenant: Id) {
    step.Retry? && step.eventId == e && step.tenant == tenant
  }

  /** The only thing bystanders can do to the row: a manual retry resets a failed event. */
  function Reset(row: Event): Event {
    if row.status != Retrying && row.status != DeadLetter then row
    else row.(status := Pending, attempts := if row.status == DeadLetter then 0 else row.attempts,
              nextRetryAt := None, lastError := None)
  }

  ghost predicate RetriedBy(steps: seq<Step>, e: Id, tenant: Id) {
    exists step | step in steps :: IsRetryOf(step, e, tenant)
  }

  lemma ForeignStepLeavesWorker(s: State, step: Step, w: Id)
    requires !ByWorker(step, w)
    ensures WorkerAt(Next(s, step), w) == WorkerAt(s, w)
    ensures Next(s, step).settings == s.settings
  {
  }

  lemma OwnStepStaysAlone(s: State, step: Step, w: Id, e: Id)
    requires ByWorker(step, w) && Alone(s, w, e)
    ensures Alone(Next(s, step), w, e)
  {
    assert forall v | v != w :: WorkerAt(Next(s, step), v) == WorkerAt(s, v);
  }

  lemma BystanderStaysAway(s: State, step: Step, w: Id, e: Id)
    requires Alone(s, w, e) && !ByWorker(step, w) && !LooksAt(step, e)
    ensures Alone(Next(s, step), w, e)
  {
    forall v | v != w
      ensures var worker := WorkerAt(Next(s, step), v);
              !(worker.Working? && worker.eventId == e) && !(worker.Checked? && worker.eventId == e)
    {
      assert !Holds(s, v, e) && !(WorkerAt(s, v).Checked? && WorkerAt(s, v).eventId == e);
    }
  }

  /** Only a worker that has the event, or a retry or a request, rewrites its row. */
  lemma WorkerStepMissesRow(s: State, step: Step, w: Id, e: Id)
    requires Alone(s, w, e) && !ByWorker(step, w) && e in s.db.events
    requires step.Acquire? || step.Save? || step.Fail?
    ensures e in Next(s, step).db.events && Next(s, step).db.events[e] == s.db.events[e]
  {
    assert step.worker != w;
    assert !Holds(s, step.worker, e) && !(WorkerAt(s, step.worker).Checked? && WorkerAt(s, step.worker).eventId == e);
  }

  lemma BystanderStep(s: State, step: Step, w: Id, e: Id)
    requires Alone(s, w, e) && !ByWorker(step, w) && e in s.db.events
    ensures e in Next(s, step).db.events
    ensures Next(s, step).db.events[e]
         == if IsRetryOf(step, e, s.db.events[e].tenant) then Reset(s.db.events[e]) else s.db.events[e]
  {
    if step.Acquire? || step.Save? || step.Fail? {
      WorkerStepMissesRow(s, step, w, e);
    } else if step.Register? || step.Activate? || step.RemoveDocument? || step.RemoveKnowledgeBase? {
      RegistryStepsAge(s, step);
    }
  }

  lemma {:induction false} BystanderRun(s: State, steps: seq<Step>, w: Id, e: Id)
    requires Alone(s, w, e) && Bystanders(steps, w, e) && e in s.db.events
    ensures Alone(Execute(s, steps), w, e) && e in Execute(s, steps).db.events
    ensures Execute(s, steps).db.events[e]
         == if RetriedBy(steps, e, s.db.events[e].tenant) then Reset(s.db.events[e]) else s.db.events[e]
  {
    if steps != [] {
      var front, last := steps[..|steps| - 1], steps[|steps| - 1];
      BystanderRun(s, front, w, e);
      assert last in steps;
      BystanderStaysAway(Execute(s, front), last, w, e);
      BystanderStep(Execute(s, front), last, w, e);
      RetriedSnoc(front, last, e, s.db.events[e].tenant);
      assert steps == front + [last];
    }
  }

  lemma RetriedSnoc(front: seq<Step>, last: Step, e: Id, tenant: Id)
    ensures RetriedBy(front + [last], e, tenant) <==> RetriedBy(front, e, tenant) || IsRetryOf(last, e, tenant)
  {
    assert forall step :: step in front + [last] <==> step in front || step == last;
  }

  /** While a worker holds the event its row is its own: nobody else's steps change it. */
  lemma HeldRowIsOwn(s: State, steps: seq<Step>, w: Id, e: Id)
    requires CleanupInvariant(s) && Holds(s, w, e) && Alone(s, w, e) && Bystanders(steps, w, e)
    ensures e in s.db.events && Alone(Execute(s, steps), w, e)
    ensures e in Execute(s, steps).db.events && Execute(s, steps).db.events[e] == s.db.events[e]
  {
    assert WorkerOk(s, s.workers[w]);
    BystanderRun(s, steps, w, e);
  }
}
