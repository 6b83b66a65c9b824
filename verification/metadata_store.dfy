/** The metadata tables as the ORM session mutates them. Each method is one
    `session_scope` block; its contract is the transaction it must commit. */
module MetadataStore {
  import opened Wrappers
  import opened Transactions
  import opened TransactionEffects

  /** The tables hold what the transaction left, and the caller sees its result or its error. */
  ghost predicate Performs<R>(before: Db, after: Db, r: Result<R, TxError>, tx: Tx<R>) {
    match tx
    case Commit(db, result) => after == db && r == Success(result)
    case Abort(error) => after == before && r == Failure(error)
  }

  /** Among the live namesakes some one has the highest current version. */
  lemma LatestNamesakeExists(db: Db, kb: Id, filename: string)
    requires exists d | d in db.documents :: HasFilename(db, kb, filename, d)
    ensures exists d | d in db.documents :: IsPrevious(db, kb, filename, d)
  {
    var d :| d in db.documents && HasFilename(db, kb, filename, d);
    var latest := LatestAmong(db, kb, filename, db.documents.Keys, d);
    assert IsPrevious(db, kb, filename, latest);
  }

  lemma {:induction false} LatestAmong(db: Db, kb: Id, filename: string, ids: set<Id>, first: Id) returns (latest: Id)
    requires ids <= db.documents.Keys && HasFilename(db, kb, filename, first)
    ensures HasFilename(db, kb, filename, latest)
    ensures db.documents[first].currentVersion <= db.documents[latest].currentVersion
    ensures forall d | d in ids && HasFilename(db, kb, filename, d) ::
              db.documents[d].currentVersion <= db.documents[latest].currentVersion
    decreases |ids|
  {
    latest := first;
    if ids != {} {
      var d :| d in ids;
      latest := LatestAmong(db, kb, filename, ids - {d}, first);
      if HasFilename(db, kb, filename, d) && db.documents[d].currentVersion > db.documents[latest].currentVersion {
        latest := d;
      }
    }
  }

  class Store {
    const settings: Settings
    var knowledgeBases: map<Id, KnowledgeBase>
    var documents: map<Id, Document>
    var versions: map<(Id, nat), bool>
    var hashes: map<(Id, nat), string>
    var events: map<Id, Event>

    constructor (settings: Settings, knowledgeBases: map<Id, KnowledgeBase>)
      ensures this.settings == settings
      ensures Rows() == Db(knowledgeBases, map[], map[], map[], map[])
    {
      this.settings := settings;
      this.knowledgeBases := knowledgeBases;
      documents, versions, hashes, events := map[], map[], map[], map[];
    }

    function Rows(): Db
      reads this
    {
      Db(knowledgeBases, documents, versions, hashes, events)
    }

    method RequestDocumentDeletion(documentId: Id, tenant: Id, freshId: Id)
      returns (r: Result<bool, TxError>, eventId: Id)
      modifies this`documents, this`events
      ensures Performs(old(Rows()), Rows(), r, RequestDeletion(old(Rows()), settings, documentId, tenant, freshId))
      ensures r.Success? ==> IsDeletionEvent(Rows(), documentId, tenant, eventId)
    {
      eventId := freshId;
      if documentId !in documents || documents[documentId].tenant != tenant {
        return Failure(NotFound), eventId;
      }
      if existing :| existing in events && events[existing].tenant == tenant && events[existing].document == documentId {
        assert IsDeletionEvent(Rows(), documentId, tenant, existing);
        return Success(false), existing;
      }
      if freshId in events {
        return Failure(IntegrityViolation), eventId;
      }
      var event := Event(tenant, documentId, Pending, [], 0, settings.maxRetries, None, None);
      documents := documents[documentId := documents[documentId].(lifecycle := Deleting)];
      events := events[freshId := event];
      r := Success(true);
    }

    method MarkCleanupStarted(eventId: Id, tenant: Id) returns (r: Result<(Event, bool), TxError>)
      modifies this`documents, this`events
      ensures Performs(old(Rows()), Rows(), r, MarkStarted(old(Rows()), eventId, tenant))
    {
      if eventId !in events || events[eventId].tenant != tenant {
        return Failure(NotFound);
      }
      var event := events[eventId];
      if event.status == Completed {
        return Success((event, false));
      }
      if event.status == Processing {
        return Success((event, false));
      }
      event := event.(status := Processing);
      event := event.(attempts := event.attempts + 1);
      event := event.(nextRetryAt := None, lastError := None);
      events := events[eventId := event];
      if event.document in documents && documents[event.document].lifecycle == CleanupFailed {
        documents := documents[event.document := documents[event.document].(lifecycle := CleanupRetrying)];
      }
      r := Success((event, true));
    }

    method RecordCleanupStage(eventId: Id, tenant: Id, stage: Stage) returns (r: Result<Event, TxError>)
      modifies this`events
      ensures Performs(old(Rows()), Rows(), r, RecordStage(old(Rows()), eventId, tenant, stage))
    {
      if eventId !in events || events[eventId].tenant != tenant {
        return Failure(NotFound);
      }
      var stages := events[eventId].completed;
      if stage !in stages {
        stages := stages + [stage];
      }
      events := events[eventId := events[eventId].(completed := stages)];
      r := Success(events[eventId]);
    }

    method MarkCleanupFailure(eventId: Id, tenant: Id, now: int, error: string) returns (r: Result<Event, TxError>)
      modifies this`documents, this`events
      ensures Performs(old(Rows()), Rows(), r, MarkFailure(old(Rows()), settings, eventId, tenant, now, error))
    {
      if eventId !in events || events[eventId].tenant != tenant {
        return Failure(NotFound);
      }
      var event := events[eventId];
      var exhausted := event.attempts >= event.maxAttempts;
      event := event.(status := if exhausted then DeadLetter else Retrying, lastError := Some(error));
      if !exhausted {
        var delay := RetryDelay(settings, event.attempts);
        event := event.(nextRetryAt := Some(now + delay));
      }
      events := events[eventId := event];
      if event.document in documents {
        documents := documents[event.document := documents[event.document].(lifecycle := CleanupFailed)];
      }
      r := Success(event);
    }

    method FinalizeDocumentDeletion(eventId: Id, tenant: Id) returns (r: Result<Event, TxError>)
      modifies this`documents, this`versions, this`events
      ensures Performs(old(Rows()), Rows(), r, FinalizeDeletion(old(Rows()), eventId, tenant))
    {
      if eventId !in events || events[eventId].tenant != tenant {
        return Failure(NotFound);
      }
      var event := events[eventId];
      if event.status == Completed {
        return Success(event);
      }
      if event.document !in documents || documents[event.document].tenant != tenant {
        return Failure(NotFound);
      }
      documents := documents[event.document := documents[event.document].(lifecycle := Deleted, deleted := true)];
      versions := Deactivate(versions, event.document);
      var stages := event.completed;
      if SqlMetadata !in stages {
        stages := stages + [SqlMetadata];
      }
      event := event.(completed := stages, status := Completed);
      event := event.(nextRetryAt := None, lastError := None);
      events := events[eventId := event];
      r := Success(event);
    }

    method RetryCleanupEvent(eventId: Id, tenant: Id) returns (r: Result<Event, TxError>)
      modifies this`documents, this`events
      ensures Performs(old(Rows()), Rows(), r, RetryEvent(old(Rows()), eventId, tenant))
    {
      if eventId !in events || events[eventId].tenant != tenant {
        return Failure(NotFound);
      }
      var event := events[eventId];
      if event.status == Completed || event.status == Pending || event.status == Processing {
        return Success(event);
      }
      if event.status == DeadLetter {
        event := event.(attempts := 0);
      }
      event := event.(status := Pending, nextRetryAt := None, lastError := None);
      events := events[eventId := event];
      if event.document in documents {
        documents := documents[event.document := documents[event.document].(lifecycle := CleanupRetrying)];
      }
      r := Success(event);
    }

    method ActivateDocumentVersion(documentId: Id, version: nat, tenant: Id) returns (r: Result<(), TxError>)
      modifies this`documents, this`versions
      ensures Performs(old(Rows()), Rows(), r, ActivateVersion(old(Rows()), documentId, version, tenant))
    {
      if documentId !in documents || documents[documentId].tenant != tenant || documents[documentId].deleted {
        return Failure(NotFound);
      }
      if documents[documentId].lifecycle != Active {
        return Failure(NotFound);
      }
      if (documentId, version) !in versions {
        return Failure(NotFound);
      }
      versions := Deactivate(versions, documentId);
      versions := versions[(documentId, version) := true];
      documents := documents[documentId := documents[documentId].(currentVersion := version)];
      r := Success(());
    }

    /** The same content first, then the live namesake with the highest version, else a new document. */
    method RegisterUpload(kb: Id, filename: string, hash: string, freshId: Id)
      returns (r: Result<Registration, TxError>, ghost chosen: Id)
      modifies this`documents, this`versions, this`hashes
      ensures Performs(old(Rows()), Rows(), r, RegisterDocument(old(Rows()), kb, filename, hash, chosen, freshId))
    {
      chosen := freshId;
      if kb !in knowledgeBases || knowledgeBases[kb].deleted {
        return Failure(NotFound), chosen;
      }
      if existing :| existing in documents && HasContent(Rows(), kb, hash, existing) {
        chosen := existing;
        var number := documents[existing].currentVersion;
        r := if (existing, number) in versions then Success(Registration(existing, number, false)) else Failure(MissingMetadata);
      } else if exists d | d in documents :: HasFilename(Rows(), kb, filename, d) {
        LatestNamesakeExists(Rows(), kb, filename);
        var previous :| previous in documents && IsPrevious(Rows(), kb, filename, previous);
        chosen := previous;
        r := NextVersion(previous, hash);
      } else {
        r := NewDocument(kb, filename, hash, freshId);
      }
    }

    /** All versions off, the counter raised, the new version on: or a unique constraint refuses it. */
    method NextVersion(previous: Id, hash: string) returns (r: Result<Registration, TxError>)
      requires previous in documents
      modifies this`documents, this`versions, this`hashes
      ensures Performs(old(Rows()), Rows(), r, AddVersion(old(Rows()), hash, previous))
    {
      var document := documents[previous];
      var number := document.currentVersion + 1;
      if (previous, number) in versions
         || exists d | d in documents ::
              d != previous && documents[d].knowledgeBase == document.knowledgeBase && documents[d].contentHash == hash {
        return Failure(IntegrityViolation);
      }
      versions := Deactivate(versions, previous);
      documents := documents[previous := document.(currentVersion := number, contentHash := hash)];
      versions := versions[(previous, number) := true];
      hashes := hashes[(previous, number) := hash];
      r := Success(Registration(previous, number, true));
    }

    method NewDocument(kb: Id, filename: string, hash: string, freshId: Id) returns (r: Result<Registration, TxError>)
      requires kb in knowledgeBases
      modifies this`documents, this`versions, this`hashes
      ensures Performs(old(Rows()), Rows(), r, AddDocument(old(Rows()), kb, filename, hash, freshId))
    {
      if freshId in documents || (freshId, 1) in versions
         || exists d | d in documents :: documents[d].knowledgeBase == kb && documents[d].contentHash == hash {
        return Failure(IntegrityViolation);
      }
      documents := documents[freshId := Document(knowledgeBases[kb].tenant, kb, filename, hash, 1, Active, false)];
      versions := versions[(freshId, 1) := true];
      hashes := hashes[(freshId, 1) := hash];
      r := Success(Registration(freshId, 1, true));
    }

    method SoftDeleteOneDocument(documentId: Id) returns (r: Result<bool, TxError>)
      modifies this`documents
      ensures Performs(old(Rows()), Rows(), r, SoftDeleteDocument(old(Rows()), documentId))
      ensures r == Success(true) ==> DocumentIsDeleted(old(Rows()), Rows(), documentId)
    {
      DocumentDeletionIsExact(Rows(), documentId);
      if documentId !in documents || documents[documentId].deleted {
        return Success(false);
      }
      documents := documents[documentId := documents[documentId].(deleted := true)];
      r := Success(true);
    }

    /** The loop over the undeleted documents of the base. */
    method DeleteDocumentsOf(kb: Id)
      modifies this`documents
      ensures documents.Keys == old(documents).Keys
      ensures forall d | d in documents :: documents[d] == Emptied(old(documents)[d], kb)
    {
      var pending := set d | d in documents && documents[d].knowledgeBase == kb && !documents[d].deleted;
      while pending != {}
        invariant documents.Keys == old(documents).Keys
        invariant forall d | d in documents && d in pending :: documents[d] == old(documents)[d]
        invariant forall d | d in documents && d !in pending :: documents[d] == Emptied(old(documents)[d], kb)
        invariant forall d | d in pending :: d in documents
        decreases pending
      {
        var d :| d in pending;
        documents := documents[d := documents[d].(deleted := true)];
        pending := pending - {d};
      }
    }

    method SoftDeleteBase(kb: Id) returns (r: Result<bool, TxError>)
      modifies this`knowledgeBases, this`documents
      ensures Performs(old(Rows()), Rows(), r, SoftDeleteKnowledgeBase(old(Rows()), kb))
      ensures r == Success(true) ==> BaseIsDeleted(old(Rows()), Rows(), kb)
    {
      BaseDeletionIsExact(Rows(), kb);
      if kb !in knowledgeBases || knowledgeBases[kb].deleted {
        return Success(false);
      }
      knowledgeBases := knowledgeBases[kb := knowledgeBases[kb].(deleted := true)];
      DeleteDocumentsOf(kb);
      assert documents == SoftDeleteKnowledgeBase(old(Rows()), kb).db.documents;
      r := Success(true);
    }
  }

  /** The row of a document once its knowledge base `kb` has been deleted. */
  function Emptied(document: Document, kb: Id): Document {
    if document.knowledgeBase == kb then document.(deleted := true) else document
  }
}
