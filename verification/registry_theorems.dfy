/** The version registry over every run, and when a new upload is refused. */
module RegistryTheorems {
  import opened Transactions
  import opened VersionRegistry
  import opened Protocol

  lemma SoftDeleteRetires(db: Db, d: Id)
    ensures OnlyRetires(db, After(db, SoftDeleteDocument(db, d)))
  {
  }

  lemma SoftDeletedBaseRetires(db: Db, kb: Id)
    ensures OnlyRetires(db, After(db, SoftDeleteKnowledgeBase(db, kb)))
  {
  }

  /** Versions, knowledge bases and every registry column are as before. */
  ghost predicate OnlyLifecycles(db: Db, db': Db) {
    && db'.versions == db.versions && db'.hashes == db.hashes && db'.knowledgeBases == db.knowledgeBases
    && db'.documents.Keys == db.documents.Keys
    && forall d | d in db.documents :: db'.documents[d].(lifecycle := Active) == db.documents[d].(lifecycle := Active)
  }

  lemma LifecyclesRetire(db: Db, db': Db)
    requires OnlyLifecycles(db, db')
    ensures OnlyRetires(db, db')
  {
    forall d | d in db.documents
      ensures db'.documents[d].knowledgeBase == db.documents[d].knowledgeBase
      ensures db'.documents[d].filename == db.documents[d].filename
      ensures db'.documents[d].contentHash == db.documents[d].contentHash
      ensures db'.documents[d].currentVersion == db.documents[d].currentVersion
      ensures db'.documents[d].deleted == db.documents[d].deleted
    {
      assert db'.documents[d].(lifecycle := Active) == db.documents[d].(lifecycle := Active);
    }
  }

  lemma RequestRetires(db: Db, settings: Settings, d: Id, e: Id, tenant: Id)
    ensures OnlyRetires(db, After(db, RequestDeletion(db, settings, d, tenant, e)))
  {
    LifecyclesRetire(db, After(db, RequestDeletion(db, settings, d, tenant, e)));
  }

  lemma RetryRetires(db: Db, e: Id, tenant: Id)
    ensures OnlyRetires(db, After(db, RetryEvent(db, e, tenant)))
  {
    LifecyclesRetire(db, After(db, RetryEvent(db, e, tenant)));
  }

  lemma StartRetires(db: Db, e: Id, tenant: Id)
    ensures OnlyRetires(db, After(db, MarkStarted(db, e, tenant)))
  {
    LifecyclesRetire(db, After(db, MarkStarted(db, e, tenant)));
  }

  lemma RecordRetires(db: Db, e: Id, tenant: Id, stage: Stage)
    ensures OnlyRetires(db, After(db, RecordStage(db, e, tenant, stage)))
  {
    LifecyclesRetire(db, After(db, RecordStage(db, e, tenant, stage)));
  }

  lemma FailureRetires(db: Db, settings: Settings, e: Id, tenant: Id, now: int, error: string)
    ensures OnlyRetires(db, After(db, MarkFailure(db, settings, e, tenant, now, error)))
  {
    LifecyclesRetire(db, After(db, MarkFailure(db, settings, e, tenant, now, error)));
  }

  lemma FinalizeRetires(db: Db, e: Id, tenant: Id)
    ensures OnlyRetires(db, After(db, FinalizeDeletion(db, e, tenant)))
  {
  }

  lemma StepKeepsRegistry(s: State, step: Step)
    requires RegistryInvariant(s.db)
    ensures RegistryInvariant(Next(s, step).db)
  {
    match step
    case Register(kb, f, h, chosen, id) => RegisterKeepsRegistry(s.db, kb, f, h, chosen, id);
    case Activate(d, v, t) => ActivateKeepsRegistry(s.db, d, v, t);
    case _ =>
      StepRetires(s, step);
      RetiringKeepsRegistry(s.db, Next(s, step).db);
  }

  lemma StepRetires(s: State, step: Step)
    requires !step.Register? && !step.Activate?
    ensures OnlyRetires(s.db, Next(s, step).db)
  {
    match step
    case RemoveDocument(d) => SoftDeleteRetires(s.db, d);
    case RemoveKnowledgeBase(kb) => SoftDeletedBaseRetires(s.db, kb);
    case Request(d, t, e) => RequestRetires(s.db, s.settings, d, e, t);
    case Retry(e, t) => RetryRetires(s.db, e, t);
    case _ => WorkerStepRetires(s, step);
  }

  lemma WorkerStepRetires(s: State, step: Step)
    requires step.Look? || step.Acquire? || step.LoadContext? || step.Advance? || step.RunHandler?
          || step.Save? || step.Audit? || step.Fail? || step.Crash?
    ensures OnlyRetires(s.db, Next(s, step).db)
  {
    LifecyclesRetire(s.db, s.db);
    match step
    case Acquire(w) =>
      if WorkerAt(s, w).Checked? {
        StartRetires(s.db, WorkerAt(s, w).eventId, WorkerAt(s, w).tenant);
      }
    case Save(w, _) =>
      if WorkerAt(s, w).Working? {
        var worker := WorkerAt(s, w);
        FinalizeRetires(s.db, worker.eventId, worker.tenant);
        RecordRetires(s.db, worker.eventId, worker.tenant, CLEANUP_STAGES[if worker.next < 4 then worker.next else 0]);
      }
    case Fail(w, _, now, error) =>
      if WorkerAt(s, w).Working? {
        FailureRetires(s.db, s.settings, WorkerAt(s, w).eventId, WorkerAt(s, w).tenant, now, error);
      }
    case _ =>
  }

  /** After any run every live document has versions 1..n, one of them active and current;
      live namesakes and equal hashes cannot coexist in one knowledge base. */
  lemma {:induction false} RunsKeepRegistry(s: State, steps: seq<Step>)
    requires Initial(s)
    ensures RegistryInvariant(Execute(s, steps).db)
  {
    if |steps| > 0 {
      RunsKeepRegistry(s, steps[..|steps| - 1]);
      StepKeepsRegistry(Execute(s, steps[..|steps| - 1]), steps[|steps| - 1]);
    }
  }

  /** A changed file with a live namesake is accepted exactly when the namesake has not been
      rolled back to an older version and no deleted document still owns the new hash. */
  lemma NewVersionAcceptedIff(db: Db, kb: Id, filename: string, hash: string, previous: Id, freshId: Id, n: nat)
    requires RegistryInvariant(db) && kb in db.knowledgeBases && !db.knowledgeBases[kb].deleted
    requires IsPrevious(db, kb, filename, previous) && Numbered(db, previous, n)
    requires !exists d | d in db.documents :: HasContent(db, kb, hash, d)
    ensures RegisterDocument(db, kb, filename, hash, previous, freshId).Commit?
       <==> db.documents[previous].currentVersion == n && !HashTaken(db, kb, hash, previous)
    ensures RegisterDocument(db, kb, filename, hash, previous, freshId).Commit?
        ==> RegisterDocument(db, kb, filename, hash, previous, freshId).result == Registration(previous, n + 1, true)
  {
    assert WellVersioned(db, previous);
    assert (previous, db.documents[previous].currentVersion) in db.versions;
  }

  /** A row the upload's queries could return; without a match there is none, and the argument is ignored. */
  ghost predicate Answers(db: Db, kb: Id, filename: string, hash: string, chosen: Id) {
    if exists d | d in db.documents :: HasContent(db, kb, hash, d) then HasContent(db, kb, hash, chosen)
    else if exists d | d in db.documents :: HasFilename(db, kb, filename, d) then IsPrevious(db, kb, filename, chosen)
    else true
  }

  ghost predicate RolledBack(db: Db, documentId: Id)
    requires documentId in db.documents
  {
    exists v: nat :: v > db.documents[documentId].currentVersion && (documentId, v) in db.versions
  }

  ghost predicate OwnedByDeleted(db: Db, kb: Id, hash: string) {
    exists d | d in db.documents ::
      db.documents[d].deleted && db.documents[d].knowledgeBase == kb && db.documents[d].contentHash == hash
  }

  lemma RolledBackIff(db: Db, documentId: Id)
    requires RegistryInvariant(db) && Live(db, documentId)
    ensures RolledBack(db, documentId) <==> (documentId, db.documents[documentId].currentVersion + 1) in db.versions
  {
    assert WellVersioned(db, documentId);
    var n: nat :| Numbered(db, documentId, n);
    var current := db.documents[documentId].currentVersion;
    if (documentId, current + 1) in db.versions {
      assert current + 1 > current;
    }
    if RolledBack(db, documentId) {
      var v: nat :| v > current && (documentId, v) in db.versions;
      assert 1 <= current <= n && v <= n;
    }
  }

  /** New content meets another owner of its hash only in a deleted document. */
  lemma OnlyDeletedOwners(db: Db, kb: Id, hash: string, except: Id)
    requires !exists d | d in db.documents :: HasContent(db, kb, hash, d)
    requires except in db.documents ==> Live(db, except)
    ensures HashTaken(db, kb, hash, except) <==> OwnedByDeleted(db, kb, hash)
  {
    forall d | d in db.documents && db.documents[d].knowledgeBase == kb && db.documents[d].contentHash == hash
      ensures db.documents[d].deleted
    {
      assert !HasContent(db, kb, hash, d);
    }
  }

  /** Every upload to a live knowledge base is accepted, except that a changed file is refused while its
      namesake is rolled back, and new content while a deleted document of the base owns its hash. */
  lemma UploadAcceptedIff(db: Db, kb: Id, filename: string, hash: string, chosen: Id, freshId: Id)
    requires RegistryInvariant(db) && freshId !in db.documents && Answers(db, kb, filename, hash, chosen)
    ensures RegisterDocument(db, kb, filename, hash, chosen, freshId).Commit?
       <==> && kb in db.knowledgeBases && !db.knowledgeBases[kb].deleted
            && ((exists d | d in db.documents :: HasContent(db, kb, hash, d))
                || (!OwnedByDeleted(db, kb, hash)
                    && forall d | d in db.documents && HasFilename(db, kb, filename, d) :: !RolledBack(db, d)))
  {
    if kb in db.knowledgeBases && !db.knowledgeBases[kb].deleted {
      if exists d | d in db.documents :: HasContent(db, kb, hash, d) {
        assert WellVersioned(db, chosen);
      } else if exists d | d in db.documents :: HasFilename(db, kb, filename, d) {
        OnlyDeletedOwners(db, kb, hash, chosen);
        RolledBackIff(db, chosen);
        assert forall d | d in db.documents && HasFilename(db, kb, filename, d) :: d == chosen;
      } else {
        OnlyDeletedOwners(db, kb, hash, freshId);
      }
    }
  }

  /** The live document with this content or, if there is none, the live namesake has left ACTIVE. */
  ghost predicate MatchIsLeaving(db: Db, kb: Id, filename: string, hash: string) {
    exists d | d in db.documents ::
      && db.documents[d].lifecycle != Active
      && (HasContent(db, kb, hash, d)
          || (HasFilename(db, kb, filename, d) && !exists c | c in db.documents :: HasContent(db, kb, hash, c)))
  }

  /** An accepted upload lands on a document that has left ACTIVE exactly when its match has: the queries look
      at deletion marks only, not at the lifecycle. */
  lemma LandsOnLeavingIff(db: Db, kb: Id, filename: string, hash: string, chosen: Id, freshId: Id)
    requires RegistryInvariant(db) && RegisterDocument(db, kb, filename, hash, chosen, freshId).Commit?
    ensures var tx := RegisterDocument(db, kb, filename, hash, chosen, freshId);
            && tx.result.document in tx.db.documents
            && (tx.db.documents[tx.result.document].lifecycle != Active <==> MatchIsLeaving(db, kb, filename, hash))
  {
    if exists d | d in db.documents :: HasContent(db, kb, hash, d) {
      assert forall d | d in db.documents && HasContent(db, kb, hash, d) :: d == chosen;
    } else if exists d | d in db.documents :: HasFilename(db, kb, filename, d) {
      assert forall d | d in db.documents && HasFilename(db, kb, filename, d) :: d == chosen;
    }
  }

  /** Uploading the same content again answers with the existing document and adds nothing;
      the lookup cannot fail in a well-formed database. */
  lemma SameContentIsReused(db: Db, kb: Id, filename: string, hash: string, existing: Id, freshId: Id)
    requires RegistryInvariant(db) && HasContent(db, kb, hash, existing)
    ensures RegisterDocument(db, kb, filename, hash, existing, freshId)
         == Commit(db, Registration(existing, db.documents[existing].currentVersion, false))
    ensures forall d | d in db.documents :: HasContent(db, kb, hash, d) ==> d == existing
  {
    assert WellVersioned(db, existing);
    assert LiveHomes(db);
  }

  // ------------------------------------------- the migration that added `is_active`

  datatype VersionRow = VersionRow(document: Id, version: nat, active: bool)

  /** Switch on the rows that carry their document's current version number. */
  function Backfill(rows: seq<VersionRow>, current: map<Id, nat>): (filled: seq<VersionRow>)
    ensures |filled| == |rows|
  {
    seq(|rows|, i requires 0 <= i < |rows| =>
      rows[i].(active := rows[i].document in current && current[rows[i].document] == rows[i].version))
  }

  ghost predicate AtMostOneActive(rows: seq<VersionRow>) {
    forall i, j | 0 <= i < j < |rows| :: rows[i].active && rows[j].active ==> rows[i].document != rows[j].document
  }

  /** The backfilled table meets the index exactly when no document has two rows with its
      current number; unique (document, version) is enough. */
  lemma BackfillMeetsIndexIff(rows: seq<VersionRow>, current: map<Id, nat>)
    ensures AtMostOneActive(Backfill(rows, current))
       <==> forall i, j | 0 <= i < j < |rows| ::
              rows[i].document == rows[j].document && rows[i].version == rows[j].version
              ==> !(rows[i].document in current && current[rows[i].document] == rows[i].version)
  {
    var filled := Backfill(rows, current);
    if !AtMostOneActive(filled) {
      var i, j :| 0 <= i < j < |filled| && filled[i].active && filled[j].active && filled[i].document == filled[j].document;
      assert rows[i].document == rows[j].document && rows[i].version == rows[j].version;
    }
    if i, j :| 0 <= i < j < |rows| && rows[i].document == rows[j].document && rows[i].version == rows[j].version
               && rows[i].document in current && current[rows[i].document] == rows[i].version {
      assert filled[i].active && filled[j].active && filled[i].document == filled[j].document;
    }
  }
}
