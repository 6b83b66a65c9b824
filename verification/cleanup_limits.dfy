/** Where the cleanup protocol gives less than its names suggest, and exactly when. */
module CleanupLimits {
  import opened Wrappers
  import opened Transactions
  import opened Protocol
  import opened CleanupInvariants
  import opened CleanupTheorems
  import opened CleanupCoupling

  // --------------------------------------------------- the attempt counter

  ghost predicate WithinAttempts(db: Db) {
    forall e | e in db.events :: db.events[e].attempts <= db.events[e].maxAttempts
  }

  /** A worker that looked before the event was dead-lettered acquires it afterwards. */
  predicate LateAcquire(s: State, step: Step) {
    step.Acquire? &&
    match WorkerAt(s, step.worker)
    case Checked(e, tenant) => EventVisible(s.db, e, tenant) && s.db.events[e].status == DeadLetter
    case _ => false
  }

  lemma AcquireAttempts(s: State, w: Id)
    requires CleanupInvariant(s) && WithinAttempts(s.db)
    ensures WithinAttempts(Next(s, Acquire(w)).db) <==> !LateAcquire(s, Acquire(w))
  {
    match WorkerAt(s, w)
    case Checked(e, tenant) =>
      var db' := Next(s, Acquire(w)).db;
      if EventVisible(s.db, e, tenant) {
        assert EventOk(s.db, s.db.events[e]);
        assert e in db'.events && (db' == s.db || db'.events[e].attempts == s.db.events[e].attempts + 1);
      }
    case _ =>
  }

  lemma RequestAttempts(s: State, step: Step)
    requires CleanupInvariant(s) && WithinAttempts(s.db) && (step.Request? || step.Retry?)
    ensures WithinAttempts(Next(s, step).db)
  {
  }

  lemma WorkerAttempts(s: State, step: Step)
    requires CleanupInvariant(s) && WithinAttempts(s.db) && (step.Save? || step.Fail?)
    ensures WithinAttempts(Next(s, step).db)
  {
    assert WorkerAt(s, step.worker).Working? ==> WorkerOk(s, WorkerAt(s, step.worker));
  }

  lemma StepAttempts(s: State, step: Step)
    requires CleanupInvariant(s) && WithinAttempts(s.db)
    ensures WithinAttempts(Next(s, step).db) <==> !LateAcquire(s, step)
  {
    if step.Acquire? {
      AcquireAttempts(s, step.worker);
    } else if step.Register? || step.Activate? || step.RemoveDocument? || step.RemoveKnowledgeBase? {
      RegistryStepsAge(s, step);
    } else if step.Request? || step.Retry? {
      RequestAttempts(s, step);
    } else if step.Save? || step.Fail? {
      WorkerAttempts(s, step);
    }
  }

  ghost predicate StayedWithin(s: State, steps: seq<Step>, n: nat)
    requires n <= |steps|
  {
    forall i | 0 <= i <= n :: WithinAttempts(At(s, steps, i).db)
  }

  ghost predicate NeverLate(s: State, steps: seq<Step>, n: nat)
    requires n <= |steps|
  {
    forall i | 0 <= i < n :: !LateAcquire(At(s, steps, i), steps[i])
  }

  lemma OneLater(s: State, steps: seq<Step>, n: nat)
    requires 0 < n <= |steps|
    ensures StayedWithin(s, steps, n) <==> StayedWithin(s, steps, n - 1) && WithinAttempts(At(s, steps, n).db)
    ensures NeverLate(s, steps, n) <==> NeverLate(s, steps, n - 1) && !LateAcquire(At(s, steps, n - 1), steps[n - 1])
    ensures StayedWithin(s, steps, n - 1) ==> WithinAttempts(At(s, steps, n - 1).db)
  {
  }

  /** `attempts` stays within the maximum throughout a run exactly when no worker
      acquires an event that is already in DEAD_LETTER. */
  lemma {:induction false} AttemptsStayWithinMaximum(s: State, steps: seq<Step>, n: nat)
    requires Initial(s) && n <= |steps|
    ensures StayedWithin(s, steps, n) <==> NeverLate(s, steps, n)
    decreases n
  {
    if n > 0 {
      AttemptsStayWithinMaximum(s, steps, n - 1);
      OneLater(s, steps, n);
      RunsKeepCleanup(s, steps, n - 1);
      OneMore(s, steps, n - 1);
      if StayedWithin(s, steps, n - 1) {
        StepAttempts(At(s, steps, n - 1), steps[n - 1]);
      }
    }
  }

  // -------------------------------------------------------- reopened events

  /** All four stages are recorded, yet the event is not COMPLETED. */
  predicate Reopened(db: Db, e: Id) {
    e in db.events && |db.events[e].completed| == 4 && db.events[e].status != Completed
  }

  lemma FinalizeLeavesReopened(s: State, w: Id, ok: bool, e: Id)
    requires CleanupInvariant(s) && Reopened(s.db, e)
    ensures Reopened(Next(s, Save(w, ok)).db, e)
  {
    var worker := WorkerAt(s, w);
    if worker.Working? {
      assert WorkerOk(s, worker);
      assert EventOk(s.db, s.db.events[e]);
      PrefixMembers(worker.snapshot, if worker.next < 4 then worker.next else 0);
    }
  }

  lemma StartNeverCompletes(db: Db, id: Id, tenant: Id, e: Id)
    requires e in db.events && db.events[e].status != Completed
    ensures var db' := After(db, MarkStarted(db, id, tenant)); e in db'.events && db'.events[e].status != Completed
    ensures var db' := After(db, RetryEvent(db, id, tenant)); e in db'.events && db'.events[e].status != Completed
  {
  }

  lemma OnlySaveCompletes(s: State, step: Step, e: Id)
    requires e in s.db.events && s.db.events[e].status != Completed && !step.Save?
    ensures e in Next(s, step).db.events && Next(s, step).db.events[e].status != Completed
  {
    if step.Register? || step.Activate? || step.RemoveDocument? || step.RemoveKnowledgeBase? {
      RegistryStepsAge(s, step);
    } else if step.Retry? {
      StartNeverCompletes(s.db, step.eventId, step.tenant, e);
    } else if step.Acquire? && WorkerAt(s, step.worker).Checked? {
      StartNeverCompletes(s.db, WorkerAt(s, step.worker).eventId, WorkerAt(s, step.worker).tenant, e);
    }
  }

  lemma StillFourStages(s: State, step: Step, e: Id)
    requires CleanupInvariant(s) && e in s.db.events && |s.db.events[e].completed| == 4
    ensures e in Next(s, step).db.events && |Next(s, step).db.events[e].completed| == 4
  {
    StepAges(s, step);
    StepKeepsCleanup(s, step);
    assert EventOk(Next(s, step).db, Next(s, step).db.events[e]);
  }

  lemma StepLeavesReopened(s: State, step: Step, e: Id)
    requires CleanupInvariant(s) && Reopened(s.db, e)
    ensures Reopened(Next(s, step).db, e)
  {
    if step.Save? {
      FinalizeLeavesReopened(s, step.worker, step.ok, e);
    } else {
      StillFourStages(s, step, e);
      OnlySaveCompletes(s, step, e);
    }
  }

  lemma NextLeavesReopened(s: State, steps: seq<Step>, j: nat, e: Id)
    requires Initial(s) && j < |steps| && Reopened(At(s, steps, j).db, e)
    ensures Reopened(At(s, steps, j + 1).db, e)
  {
    RunsKeepCleanup(s, steps, j);
    OneMore(s, steps, j);
    StepLeavesReopened(At(s, steps, j), steps[j], e);
  }

  /** An event reopened after its last stage was committed never completes again:
      every later worker skips all four stages and leaves it in PROCESSING. */
  lemma {:induction false} ReopenedNeverCompletes(s: State, steps: seq<Step>, i: nat, j: nat, e: Id)
    requires Initial(s) && i <= j <= |steps| && Reopened(At(s, steps, i).db, e)
    ensures Reopened(At(s, steps, j).db, e)
    decreases j
  {
    if i < j {
      ReopenedNeverCompletes(s, steps, i, j - 1, e);
      NextLeavesReopened(s, steps, j - 1, e);
    }
  }

  // -------------------------------------------------------- two short runs

  lemma Extend(s: State, steps: seq<Step>, step: Step)
    ensures Execute(s, steps + [step]) == Next(Execute(s, steps), step)
  {
    assert (steps + [step])[..|steps|] == steps;
  }

  function Fresh(maxRetries: nat): State {
    State(Db(map["kb" := KnowledgeBase("t", false)], map[], map[], map[], map[]),
          Settings(maxRetries, 5, 600), map[], {})
  }

  /** A document is registered, its deletion requested, and worker "w" acquires the event. */
  lemma AcquiredRun(maxRetries: nat) returns (steps: seq<Step>)
    requires maxRetries >= 1
    ensures Initial(Fresh(maxRetries))
    ensures var s := Execute(Fresh(maxRetries), steps);
            && s.settings.maxRetries == maxRetries
            && s.workers == map["w" := Working("e", "t", [], 0, AtStage), "v" := Checked("e", "t")]
            && s.db.events == map["e" := Event("t", "d", Processing, [], 1, maxRetries, None, None)]
            && DocumentVisible(s.db, "d", "t")
  {
    var s := Fresh(maxRetries);
    steps := [];
    Extend(s, steps, Register("kb", "f", "h", "", "d"));
    steps := steps + [Register("kb", "f", "h", "", "d")];
    Extend(s, steps, Request("d", "t", "e"));
    steps := steps + [Request("d", "t", "e")];
    assert Execute(s, steps).db.events == map["e" := Event("t", "d", Pending, [], 0, maxRetries, None, None)];
    Extend(s, steps, Look("w", "e", "t"));
    steps := steps + [Look("w", "e", "t")];
    Extend(s, steps, Look("v", "e", "t"));
    steps := steps + [Look("v", "e", "t")];
    Extend(s, steps, Acquire("w"));
    steps := steps + [Acquire("w")];
    Extend(s, steps, LoadContext("w", true));
    steps := steps + [LoadContext("w", true)];
  }

  lemma LastFailureDeadLetters(s: State, w: Id, e: Id, tenant: Id, k: nat)
    requires WorkerAt(s, w) == Working(e, tenant, [], k, Failing) && EventVisible(s.db, e, tenant)
    requires s.db.events[e].attempts >= s.db.events[e].maxAttempts
    ensures var now := Next(s, Fail(w, true, 0, "boom"));
            && now.db.events.Keys == s.db.events.Keys
            && now.db.events[e] == s.db.events[e].(status := DeadLetter, lastError := Some("boom"))
            && now.workers == s.workers[w := Idle]
  {
  }

  lemma DeadLetteredRun() returns (steps: seq<Step>)
    ensures Initial(Fresh(1))
    ensures var now := Execute(Fresh(1), steps);
            && WorkerAt(now, "v") == Checked("e", "t")
            && EventVisible(now.db, "e", "t")
            && now.db.events["e"].status == DeadLetter
            && now.db.events["e"].attempts == 1 && now.db.events["e"].maxAttempts == 1
  {
    steps := AcquiredRun(1);
    Extend(Fresh(1), steps, RunHandler("w", false));
    steps := steps + [RunHandler("w", false)];
    LastFailureDeadLetters(Execute(Fresh(1), steps), "w", "e", "t", 0);
    Extend(Fresh(1), steps, Fail("w", true, 0, "boom"));
    steps := steps + [Fail("w", true, 0, "boom")];
  }

  /** Two workers and one failing handler push `attempts` past the maximum. */
  lemma AttemptsCanPassMaximum() returns (s: State, steps: seq<Step>)
    ensures Initial(s) && !WithinAttempts(Execute(s, steps).db)
  {
    s := Fresh(1);
    steps := DeadLetteredRun();
    Extend(s, steps, Acquire("v"));
    steps := steps + [Acquire("v")];
    assert Execute(s, steps).db.events["e"].attempts == 2;
  }

  /** Worker "w" is at the head of stage `k` of event "e", with all earlier stages recorded. */
  ghost predicate AtHead(s: State, k: nat) {
    && k < 4
    && WorkerAt(s, "w") == Working("e", "t", [], k, AtStage)
    && EventVisible(s.db, "e", "t") && s.db.events["e"].status == Processing
    && s.db.events["e"].completed == CLEANUP_STAGES[..k]
    && DocumentVisible(s.db, s.db.events["e"].document, "t")
  }

  /** Documents and versions are as before, and event "e" is about the same document. */
  ghost predicate SameRegistry(db: Db, db': Db) {
    && db'.documents == db.documents && db'.versions == db.versions && db'.hashes == db.hashes
    && "e" in db.events && "e" in db'.events && db'.events["e"].document == db.events["e"].document
  }

  /** One stage of worker "w", handler, record and audit all succeeding. */
  lemma OneStage(s: State, k: nat)
    requires k < 3 && AtHead(s, k)
    ensures var after := Next(Next(Next(s, RunHandler("w", true)), Save("w", true)), Audit("w", true));
            AtHead(after, k + 1) && SameRegistry(s.db, after.db)
  {
    var handled := Next(s, RunHandler("w", true));
    assert handled.db == s.db && WorkerAt(handled, "w") == Working("e", "t", [], k, HandlerDone);
    var saved := Next(handled, Save("w", true));
    assert AppendStage(CLEANUP_STAGES[..k], CLEANUP_STAGES[k]) == CLEANUP_STAGES[..k + 1];
    assert WorkerAt(saved, "w") == Working("e", "t", [], k, Recorded);
  }

  lemma StageRun(s: State, steps: seq<Step>, k: nat) returns (longer: seq<Step>)
    requires k < 3 && AtHead(Execute(s, steps), k)
    ensures steps <= longer
    ensures AtHead(Execute(s, longer), k + 1) && SameRegistry(Execute(s, steps).db, Execute(s, longer).db)
  {
    Extend(s, steps, RunHandler("w", true));
    var a := steps + [RunHandler("w", true)];
    Extend(s, a, Save("w", true));
    var b := a + [Save("w", true)];
    Extend(s, b, Audit("w", true));
    longer := b + [Audit("w", true)];
    OneStage(Execute(s, steps), k);
  }

  lemma LastSaveCompletes(s: State)
    requires AtHead(s, 3)
    ensures var after := Next(s, Save("w", true));
            && IsCompleted(after.db, "e") && WorkerAt(after, "w") == Working("e", "t", [], 3, Recorded)
            && EventVisible(after.db, "e", "t") && |after.db.events["e"].completed| == 4
  {
  }

  lemma CompletedRun() returns (steps: seq<Step>)
    ensures Initial(Fresh(5)) && IsCompleted(Execute(Fresh(5), steps).db, "e")
    ensures var now := Execute(Fresh(5), steps);
            WorkerAt(now, "w") == Working("e", "t", [], 3, Recorded)
            && EventVisible(now.db, "e", "t") && |now.db.events["e"].completed| == 4
  {
    steps := AcquiredRun(5);
    steps := StageRun(Fresh(5), steps, 0);
    steps := StageRun(Fresh(5), steps, 1);
    steps := StageRun(Fresh(5), steps, 2);
    LastSaveCompletes(Execute(Fresh(5), steps));
    Extend(Fresh(5), steps, Save("w", true));
    steps := steps + [Save("w", true)];
  }

  lemma LateReportReopens(s: State)
    requires EventVisible(s.db, "e", "t") && |s.db.events["e"].completed| == 4
    requires WorkerAt(s, "w") == Working("e", "t", [], 3, Recorded)
    ensures Reopened(Next(Next(s, Audit("w", false)), Fail("w", true, 0, "audit")).db, "e")
  {
  }

  /** A failed audit write after the final commit reopens a completed deletion. */
  lemma AuditFailureReopens() returns (s: State, completed: seq<Step>, steps: seq<Step>)
    ensures Initial(s) && completed <= steps
    ensures IsCompleted(Execute(s, completed).db, "e") && Reopened(Execute(s, steps).db, "e")
  {
    s := Fresh(5);
    completed := CompletedRun();
    LateReportReopens(Execute(s, completed));
    Extend(s, completed, Audit("w", false));
    steps := completed + [Audit("w", false)];
    Extend(s, steps, Fail("w", true, 0, "audit"));
    steps := steps + [Fail("w", true, 0, "audit")];
  }
}
