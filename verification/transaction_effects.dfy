/** What each transaction does to the tables, told row by row and column by column: which rows change,
    which columns of them, and that everything else is as before. */
module TransactionEffects {
  import opened Wrappers
  import opened Transactions

  // ------------------------------------------------------------------ frames

  ghost predicate SameVersions(db: Db, db': Db) {
    db'.versions == db.versions && db'.hashes == db.hashes
  }

  ghost predicate SameDocumentKeys(db: Db, db': Db) {
    forall d :: d in db'.documents <==> d in db.documents
  }

  /** No column but the deletion mark differs. */
  ghost predicate SameButDeleted(row: Document, row': Document) {
    && row'.tenant == row.tenant && row'.knowledgeBase == row.knowledgeBase && row'.filename == row.filename
    && row'.contentHash == row.contentHash && row'.currentVersion == row.currentVersion && row'.lifecycle == row.lifecycle
  }

  ghost predicate OtherDocumentsSame(db: Db, db': Db, document: Id) {
    SameDocumentKeys(db, db') && forall d | d in db.documents && d != document :: db'.documents[d] == db.documents[d]
  }

  ghost predicate OtherEventsSame(db: Db, db': Db, event: Id) {
    forall e | e != event :: (e in db'.events <==> e in db.events) && (e in db.events ==> db'.events[e] == db.events[e])
  }

  /** At most the lifecycle of this document differs. */
  ghost predicate OnlyLifecycleOf(db: Db, db': Db, document: Id) {
    && db'.knowledgeBases == db.knowledgeBases && SameVersions(db, db') && OtherDocumentsSame(db, db', document)
    && (document in db.documents ==>
          SameButDeleted(db.documents[document], db'.documents[document].(lifecycle := db.documents[document].lifecycle))
          && db'.documents[document].deleted == db.documents[document].deleted)
  }

  // -------------------------------------------------------------- soft deletion

  /** The base is deleted, and exactly its documents with it; nothing else is touched. */
  ghost predicate BaseIsDeleted(db: Db, db': Db, kb: Id) {
    && (forall b :: b in db'.knowledgeBases <==> b in db.knowledgeBases)
    && (forall b | b in db.knowledgeBases ::
          && db'.knowledgeBases[b].tenant == db.knowledgeBases[b].tenant
          && (db'.knowledgeBases[b].deleted <==> db.knowledgeBases[b].deleted || b == kb))
    && SameDocumentKeys(db, db')
    && (forall d | d in db.documents ::
          && SameButDeleted(db.documents[d], db'.documents[d])
          && (db'.documents[d].deleted <==> db.documents[d].deleted || db.documents[d].knowledgeBase == kb))
    && SameVersions(db, db') && db'.events == db.events
  }

  lemma BaseDeletionIsExact(db: Db, kb: Id)
    ensures var tx := SoftDeleteKnowledgeBase(db, kb);
            && tx.Commit?
            && (tx.result <==> kb in db.knowledgeBases && !db.knowledgeBases[kb].deleted)
            && (if tx.result then BaseIsDeleted(db, tx.db, kb) else tx.db == db)
  {
  }

  /** The document is deleted, and only that. */
  ghost predicate DocumentIsDeleted(db: Db, db': Db, document: Id) {
    && document in db.documents && OtherDocumentsSame(db, db', document)
    && SameButDeleted(db.documents[document], db'.documents[document]) && db'.documents[document].deleted
    && db'.knowledgeBases == db.knowledgeBases && SameVersions(db, db') && db'.events == db.events
  }

  lemma DocumentDeletionIsExact(db: Db, document: Id)
    ensures var tx := SoftDeleteDocument(db, document);
            && tx.Commit?
            && (tx.result <==> document in db.documents && !db.documents[document].deleted)
            && (if tx.result then DocumentIsDeleted(db, tx.db, document) else tx.db == db)
  {
  }

  // ---------------------------------------------------------------- the registry

  /** Version `version` of the document is the current one and the only active one; no other document's versions
      and no other column are touched. */
  ghost predicate VersionIsActive(db: Db, db': Db, document: Id, version: nat) {
    && document in db.documents && (document, version) in db.versions
    && OtherDocumentsSame(db, db', document)
    && db'.documents[document] == db.documents[document].(currentVersion := version)
    && (forall d: Id, v: nat :: (d, v) in db'.versions <==> (d, v) in db.versions)
    && (forall d: Id, v: nat | (d, v) in db.versions ::
          db'.versions[(d, v)] <==> if d == document then v == version else db.versions[(d, v)])
    && db'.hashes == db.hashes && db'.knowledgeBases == db.knowledgeBases && db'.events == db.events
  }

  lemma ActivationIsExact(db: Db, document: Id, version: nat, tenant: Id)
    ensures var tx := ActivateVersion(db, document, version, tenant);
            && (tx.Commit? <==> && document in db.documents && db.documents[document].tenant == tenant
                                && !db.documents[document].deleted && db.documents[document].lifecycle == Active
                                && (document, version) in db.versions)
            && (tx.Commit? ==> VersionIsActive(db, tx.db, document, version))
  {
  }

  /** One version more, active and current, with the new content; the older ones are switched off. */
  ghost predicate VersionIsAdded(db: Db, db': Db, document: Id, number: nat, hash: string) {
    && document in db.documents && (document, number) !in db.versions
    && OtherDocumentsSame(db, db', document)
    && db'.documents[document] == db.documents[document].(currentVersion := number, contentHash := hash)
    && (forall d: Id, v: nat :: (d, v) in db'.versions <==> (d, v) in db.versions || (d, v) == (document, number))
    && (forall d: Id, v: nat | (d, v) in db'.versions ::
          db'.versions[(d, v)] <==> if d == document then v == number else db.versions[(d, v)])
    && db'.hashes == db.hashes[(document, number) := hash]
    && db'.knowledgeBases == db.knowledgeBases && db'.events == db.events
  }

  /** A document with one version, both with the new content; no other row is touched. */
  ghost predicate DocumentIsAdded(db: Db, db': Db, document: Id, kb: Id, filename: string, hash: string)
    requires kb in db.knowledgeBases
  {
    && document !in db.documents && (document, 1) !in db.versions
    && db'.documents == db.documents[document := Document(db.knowledgeBases[kb].tenant, kb, filename, hash, 1, Active, false)]
    && db'.versions == db.versions[(document, 1) := true] && db'.hashes == db.hashes[(document, 1) := hash]
    && db'.knowledgeBases == db.knowledgeBases && db'.events == db.events
  }

  /** An accepted upload changes nothing, adds a version to the live namesake, or adds a document: exactly as the
      answer says. */
  lemma RegistrationIsExact(db: Db, kb: Id, filename: string, hash: string, chosen: Id, freshId: Id)
    requires RegisterDocument(db, kb, filename, hash, chosen, freshId).Commit?
    ensures var tx := RegisterDocument(db, kb, filename, hash, chosen, freshId);
            var answer := tx.result;
            && kb in db.knowledgeBases && !db.knowledgeBases[kb].deleted
            && (if !answer.created then
                  && tx.db == db && answer.document in db.documents && !db.documents[answer.document].deleted
                  && db.documents[answer.document].knowledgeBase == kb && db.documents[answer.document].contentHash == hash
                  && db.documents[answer.document].currentVersion == answer.version
                else if answer.document in db.documents then
                  && !db.documents[answer.document].deleted && db.documents[answer.document].knowledgeBase == kb
                  && db.documents[answer.document].filename == filename
                  && answer.version == db.documents[answer.document].currentVersion + 1
                  && VersionIsAdded(db, tx.db, answer.document, answer.version, hash)
                else answer.version == 1 && DocumentIsAdded(db, tx.db, answer.document, kb, filename, hash))
  {
  }

  // ------------------------------------------------------------ the cleanup outbox

  /** A first request: the document leaves ACTIVE, and one waiting event with a full budget is added. */
  lemma RequestIsExact(db: Db, settings: Settings, document: Id, tenant: Id, freshId: Id)
    ensures var tx := RequestDeletion(db, settings, document, tenant, freshId);
            var known := exists e | e in db.events ::
              db.events[e].document == document && db.events[e].tenant == tenant;
            && (tx.Commit? <==> && document in db.documents && db.documents[document].tenant == tenant
                                && (known || freshId !in db.events))
            && (tx.Commit? ==> (tx.result <==> !known))
            && (tx.Commit? && !tx.result ==> tx.db == db)
            && (tx.Commit? && tx.result ==>
                  && OnlyLifecycleOf(db, tx.db, document) && document in db.documents
                  && db.documents[document].tenant == tenant && tx.db.documents[document].lifecycle == Deleting
                  && freshId !in db.events && OtherEventsSame(db, tx.db, freshId) && freshId in tx.db.events
                  && tx.db.events[freshId] == Event(tenant, document, Pending, [], 0, settings.maxRetries, None, None))
  {
    assert forall e | e in db.events ::
      IsDeletionEvent(db, document, tenant, e) <==> db.events[e].document == document && db.events[e].tenant == tenant;
  }

  /** An event of another tenant is like one that is not there. */
  lemma OnlyTheTenantsEvents(db: Db, settings: Settings, e: Id, tenant: Id, stage: Stage, now: int, error: string)
    ensures var visible := e in db.events && db.events[e].tenant == tenant;
            && (MarkStarted(db, e, tenant).Commit? <==> visible) && (RecordStage(db, e, tenant, stage).Commit? <==> visible)
            && (MarkFailure(db, settings, e, tenant, now, error).Commit? <==> visible)
            && (RetryEvent(db, e, tenant).Commit? <==> visible)
            && (FinalizeDeletion(db, e, tenant).Commit? <==>
                  && visible
                  && (db.events[e].status == Completed
                      || (db.events[e].document in db.documents && db.documents[db.events[e].document].tenant == tenant)))
  {
  }

  /** Recording a stage: it is among the recorded ones, once, and nothing else changes. */
  lemma RecordingIsExact(db: Db, e: Id, tenant: Id, stage: Stage)
    requires RecordStage(db, e, tenant, stage).Commit?
    ensures var db' := RecordStage(db, e, tenant, stage).db;
            && e in db.events && OtherEventsSame(db, db', e) && e in db'.events
            && db'.events[e] == db.events[e].(completed := db'.events[e].completed)
            && db'.events[e].completed
                 == (if stage in db.events[e].completed then db.events[e].completed else db.events[e].completed + [stage])
            && db'.documents == db.documents && db'.knowledgeBases == db.knowledgeBases && SameVersions(db, db')
  {
  }

  /** Acquiring: the event is PROCESSING with one attempt more and no trace of the last failure; a document that
      showed the failure shows the retry. */
  lemma AcquisitionIsExact(db: Db, e: Id, tenant: Id)
    requires MarkStarted(db, e, tenant).Commit?
    ensures var tx := MarkStarted(db, e, tenant);
            && e in db.events && db.events[e].tenant == tenant
            && (tx.result.1 <==> db.events[e].status !in {Completed, Processing})
            && (!tx.result.1 ==> tx.db == db && tx.result.0 == db.events[e])
            && (tx.result.1 ==>
                  && var d := db.events[e].document;
                  && OtherEventsSame(db, tx.db, e) && e in tx.db.events && tx.db.events[e] == tx.result.0
                  && tx.result.0 == Event(tenant, d, Processing, db.events[e].completed,
                                          db.events[e].attempts + 1, db.events[e].maxAttempts, None, None)
                  && OnlyLifecycleOf(db, tx.db, d)
                  && (d in db.documents && db.documents[d].lifecycle == CleanupFailed ==>
                        tx.db.documents[d].lifecycle == CleanupRetrying)
                  && (d in db.documents && db.documents[d].lifecycle != CleanupFailed ==> tx.db.documents == db.documents))
  {
  }

  /** Reporting a failure: the error is kept, the document shows it, and the event waits for its next time or is
      given up. */
  lemma FailureIsExact(db: Db, settings: Settings, e: Id, tenant: Id, now: int, error: string)
    requires MarkFailure(db, settings, e, tenant, now, error).Commit?
    ensures var db' := MarkFailure(db, settings, e, tenant, now, error).db;
            && e in db.events && OtherEventsSame(db, db', e) && e in db'.events
            && var (row, row') := (db.events[e], db'.events[e]);
            && row'.(status := row.status, lastError := row.lastError, nextRetryAt := row.nextRetryAt) == row
            && row'.lastError == Some(error)
            && (if row.attempts < row.maxAttempts
                then row'.status == Retrying && row'.nextRetryAt.Some? && row'.nextRetryAt.value >= now
                else row'.status == DeadLetter && row'.nextRetryAt == row.nextRetryAt)
            && OnlyLifecycleOf(db, db', row.document)
            && (row.document in db.documents ==> db'.documents[row.document].lifecycle == CleanupFailed)
  {
  }

  /** A manual retry: the event waits again, with a full budget only when it had been given up. */
  lemma RetryIsExact(db: Db, e: Id, tenant: Id)
    requires RetryEvent(db, e, tenant).Commit?
    ensures var db' := RetryEvent(db, e, tenant).db;
            && e in db.events
            && (if db.events[e].status !in {Retrying, DeadLetter} then db' == db
                else
                  && var (row, row') := (db.events[e], if e in db'.events then db'.events[e] else db.events[e]);
                  && OtherEventsSame(db, db', e) && e in db'.events
                  && row'.status == Pending && row'.nextRetryAt == None && row'.lastError == None
                  && row'.attempts == (if row.status == DeadLetter then 0 else row.attempts)
                  && row'.document == row.document && row'.tenant == row.tenant
                  && row'.completed == row.completed && row'.maxAttempts == row.maxAttempts
                  && OnlyLifecycleOf(db, db', row.document)
                  && (row.document in db.documents ==> db'.documents[row.document].lifecycle == CleanupRetrying))
  {
  }

  /** The last stage: the document is gone with all its versions, and its event is complete; no other document,
      version or event is touched. */
  ghost predicate DeletionIsFinal(db: Db, db': Db, e: Id) {
    && e in db.events && e in db'.events && OtherEventsSame(db, db', e)
    && var d := db.events[e].document;
    && d in db.documents && OtherDocumentsSame(db, db', d)
    && db'.documents[d] == db.documents[d].(lifecycle := Deleted, deleted := true)
    && (forall c: Id, v: nat :: (c, v) in db'.versions <==> (c, v) in db.versions)
    && (forall c: Id, v: nat | (c, v) in db.versions :: db'.versions[(c, v)] <==> c != d && db.versions[(c, v)])
    && db'.hashes == db.hashes && db'.knowledgeBases == db.knowledgeBases
    && var (row, row') := (db.events[e], db'.events[e]);
    && row'.status == Completed && row'.nextRetryAt == None && row'.lastError == None
    && row'.completed == (if SqlMetadata in row.completed then row.completed else row.completed + [SqlMetadata])
    && row'.document == d && row'.tenant == row.tenant
    && row'.attempts == row.attempts && row'.maxAttempts == row.maxAttempts
  }

  lemma FinalizationIsExact(db: Db, e: Id, tenant: Id)
    requires FinalizeDeletion(db, e, tenant).Commit?
    ensures var db' := FinalizeDeletion(db, e, tenant).db;
            && e in db.events
            && if db.events[e].status == Completed then db' == db else DeletionIsFinal(db, db', e)
  {
  }
}
