/** The tables of the metadata database and every `session_scope` block that
    touches documents, versions and outbox events, as functions on table values.
    A block either commits a new database or aborts and leaves the old one. */
module Transactions {
  import opened Basics
  import opened Wrappers

  type Id = string

  datatype EventStatus = Pending | Processing | Retrying | DeadLetter | Completed

  datatype Lifecycle = Active | Deleting | CleanupFailed | CleanupRetrying | Deleted

  datatype Stage = Vectors | ObjectStorage | LocalOutput | SqlMetadata

  /** The fixed order in which a cleanup worker visits the stages. */
  const CLEANUP_STAGES: seq<Stage> := [Vectors, ObjectStorage, LocalOutput, SqlMetadata]

  datatype Settings = Settings(maxRetries: nat, retryBase: nat, retryCap: nat)

  datatype KnowledgeBase = KnowledgeBase(tenant: Id, deleted: bool)

  datatype Document = Document(
    tenant: Id, knowledgeBase: Id, filename: string, contentHash: string,
    currentVersion: nat, lifecycle: Lifecycle, deleted: bool)

  datatype Event = Event(
    tenant: Id, document: Id, status: EventStatus, completed: seq<Stage>,
    attempts: nat, maxAttempts: nat, nextRetryAt: Option<int>, lastError: Option<string>)

  /** Two columns of the version rows by (document, version number): `versions` holds `is_active`,
      `hashes` the content hash. */
  datatype Db = Db(
    knowledgeBases: map<Id, KnowledgeBase>,
    documents: map<Id, Document>,
    versions: map<(Id, nat), bool>,
    hashes: map<(Id, nat), string>,
    events: map<Id, Event>)

  datatype TxError = NotFound | MissingMetadata | IntegrityViolation

  datatype Tx<+R> = Commit(db: Db, result: R) | Abort(error: TxError)

  /** What the tables are after a transaction that started from `db`. */
  function After<R>(db: Db, tx: Tx<R>): Db {
    if tx.Commit? then tx.db else db
  }

  // ---------------------------------------------------------------- lookups

  predicate EventVisible(db: Db, eventId: Id, tenant: Id) {
    eventId in db.events && db.events[eventId].tenant == tenant
  }

  predicate DocumentVisible(db: Db, documentId: Id, tenant: Id) {
    documentId in db.documents && db.documents[documentId].tenant == tenant
  }

  /** The row selected by the deduplication key `document:<id>:delete`. */
  predicate IsDeletionEvent(db: Db, documentId: Id, tenant: Id, eventId: Id) {
    EventVisible(db, eventId, tenant) && db.events[eventId].document == documentId
  }

  predicate Live(db: Db, documentId: Id) {
    documentId in db.documents && !db.documents[documentId].deleted
  }

  function SetLifecycle(db: Db, documentId: Id, lifecycle: Lifecycle): Db {
    if documentId in db.documents
    then db.(documents := db.documents[documentId := db.documents[documentId].(lifecycle := lifecycle)])
    else db
  }

  function Deactivate(versions: map<(Id, nat), bool>, documentId: Id): (off: map<(Id, nat), bool>)
    ensures off.Keys == versions.Keys
  {
    map key | key in versions :: if key.0 == documentId then false else versions[key]
  }

  // ------------------------------------------------------ the cleanup outbox

  function NewEvent(settings: Settings, documentId: Id, tenant: Id): Event {
    Event(tenant, documentId, Pending, [], 0, settings.maxRetries, None, None)
  }

  function RequestDeletion(db: Db, settings: Settings, documentId: Id, tenant: Id, freshId: Id): Tx<bool> {
    if !DocumentVisible(db, documentId, tenant) then Abort(NotFound)
    else if exists e | e in db.events :: IsDeletionEvent(db, documentId, tenant, e) then Commit(db, false)
    else if freshId in db.events then Abort(IntegrityViolation)
    else
      var marked := SetLifecycle(db, documentId, Deleting);
      Commit(marked.(events := marked.events[freshId := NewEvent(settings, documentId, tenant)]), true)
  }

  function MarkStarted(db: Db, eventId: Id, tenant: Id): Tx<(Event, bool)> {
    if !EventVisible(db, eventId, tenant) then Abort(NotFound)
    else
      var event := db.events[eventId];
      if event.status == Completed || event.status == Processing then Commit(db, (event, false))
      else
        var started := event.(status := Processing, attempts := event.attempts + 1,
                              nextRetryAt := None, lastError := None);
        var db' := db.(events := db.events[eventId := started]);
        var failed := event.document in db.documents
                      && db.documents[event.document].lifecycle == CleanupFailed;
        Commit(if failed then SetLifecycle(db', event.document, CleanupRetrying) else db', (started, true))
  }

  function AppendStage(stages: seq<Stage>, stage: Stage): seq<Stage> {
    if stage in stages then stages else stages + [stage]
  }

  function RecordStage(db: Db, eventId: Id, tenant: Id, stage: Stage): Tx<Event> {
    if !EventVisible(db, eventId, tenant) then Abort(NotFound)
    else
      var event := db.events[eventId].(completed := AppendStage(db.events[eventId].completed, stage));
      Commit(db.(events := db.events[eventId := event]), event)
  }

  function Pow2(n: nat): nat {
    if n == 0 then 1 else 2 * Pow2(n - 1)
  }

  /** Seconds before the next automatic attempt, given the attempts made so far. */
  function RetryDelay(settings: Settings, attempts: nat): nat {
    Min(settings.retryCap, settings.retryBase * Pow2(if attempts >= 1 then attempts - 1 else 0))
  }

  function MarkFailure(db: Db, settings: Settings, eventId: Id, tenant: Id, now: int, error: string): Tx<Event> {
    if !EventVisible(db, eventId, tenant) then Abort(NotFound)
    else
      var event := db.events[eventId];
      var exhausted := event.attempts >= event.maxAttempts;
      var failed := event.(
        status := if exhausted then DeadLetter else Retrying,
        lastError := Some(error),
        nextRetryAt := if exhausted then event.nextRetryAt
                       else Some(now + RetryDelay(settings, event.attempts)));
      Commit(SetLifecycle(db.(events := db.events[eventId := failed]), event.document, CleanupFailed), failed)
  }

  function FinalizeDeletion(db: Db, eventId: Id, tenant: Id): Tx<Event> {
    if !EventVisible(db, eventId, tenant) then Abort(NotFound)
    else
      var event := db.events[eventId];
      if event.status == Completed then Commit(db, event)
      else if !DocumentVisible(db, event.document, tenant) then Abort(NotFound)
      else
        var document := db.documents[event.document].(lifecycle := Deleted, deleted := true);
        var done := event.(status := Completed, completed := AppendStage(event.completed, SqlMetadata),
                           nextRetryAt := None, lastError := None);
        Commit(db.(documents := db.documents[event.document := document],
                   versions := Deactivate(db.versions, event.document),
                   events := db.events[eventId := done]), done)
  }

  function RetryEvent(db: Db, eventId: Id, tenant: Id): Tx<Event> {
    if !EventVisible(db, eventId, tenant) then Abort(NotFound)
    else
      var event := db.events[eventId];
      if event.status == Completed || event.status == Pending || event.status == Processing
      then Commit(db, event)
      else
        var reset := event.(status := Pending,
                            attempts := if event.status == DeadLetter then 0 else event.attempts,
                            nextRetryAt := None, lastError := None);
        Commit(SetLifecycle(db.(events := db.events[eventId := reset]), event.document, CleanupRetrying), reset)
  }

  // --------------------------------------------------- the version registry

  function ActivateVersion(db: Db, documentId: Id, version: nat, tenant: Id): Tx<()> {
    if !DocumentVisible(db, documentId, tenant) || db.documents[documentId].deleted
       || db.documents[documentId].lifecycle != Active then Abort(NotFound)
    else if (documentId, version) !in db.versions then Abort(NotFound)
    else
      Commit(db.(versions := Deactivate(db.versions, documentId)[(documentId, version) := true],
                 documents := db.documents[documentId := db.documents[documentId].(currentVersion := version)]), ())
  }

  function SoftDeleteDocument(db: Db, documentId: Id): Tx<bool> {
    if !Live(db, documentId) then Commit(db, false)
    else Commit(db.(documents := db.documents[documentId := db.documents[documentId].(deleted := true)]), true)
  }

  function SoftDeleteKnowledgeBase(db: Db, kb: Id): Tx<bool> {
    if kb !in db.knowledgeBases || db.knowledgeBases[kb].deleted then Commit(db, false)
    else
      Commit(db.(knowledgeBases := db.knowledgeBases[kb := db.knowledgeBases[kb].(deleted := true)],
                 documents := map d | d in db.documents ::
                   if db.documents[d].knowledgeBase == kb then db.documents[d].(deleted := true) else db.documents[d]),
             true)
  }

  predicate HasContent(db: Db, kb: Id, hash: string, documentId: Id) {
    Live(db, documentId) && db.documents[documentId].knowledgeBase == kb
    && db.documents[documentId].contentHash == hash
  }

  predicate HasFilename(db: Db, kb: Id, filename: string, documentId: Id) {
    Live(db, documentId) && db.documents[documentId].knowledgeBase == kb
    && db.documents[documentId].filename == filename
  }

  /** The row the filename query orders first: a live namesake with the highest current version. */
  predicate IsPrevious(db: Db, kb: Id, filename: string, documentId: Id) {
    HasFilename(db, kb, filename, documentId)
    && forall d | d in db.documents :: HasFilename(db, kb, filename, d)
         ==> db.documents[d].currentVersion <= db.documents[documentId].currentVersion
  }

  /** Some document other than `except`, deleted or not, already owns this content hash:
      the table constraint `uq_document_kb_hash` has no exemption for deleted rows. */
  predicate HashTaken(db: Db, kb: Id, hash: string, except: Id) {
    exists d | d in db.documents ::
      d != except && db.documents[d].knowledgeBase == kb && db.documents[d].contentHash == hash
  }

  datatype Registration = Registration(document: Id, version: nat, created: bool)

  /** A changed file becomes the next version of its live namesake. */
  function AddVersion(db: Db, hash: string, previous: Id): Tx<Registration>
    requires previous in db.documents
  {
    var document := db.documents[previous];
    var number := document.currentVersion + 1;
    if (previous, number) in db.versions || HashTaken(db, document.knowledgeBase, hash, previous)
    then Abort(IntegrityViolation)
    else
      Commit(db.(documents := db.documents[previous := document.(currentVersion := number, contentHash := hash)],
                 versions := Deactivate(db.versions, previous)[(previous, number) := true],
                 hashes := db.hashes[(previous, number) := hash]),
             Registration(previous, number, true))
  }

  function AddDocument(db: Db, kb: Id, filename: string, hash: string, freshId: Id): Tx<Registration>
    requires kb in db.knowledgeBases
  {
    if freshId in db.documents || (freshId, 1) in db.versions || HashTaken(db, kb, hash, freshId)
    then Abort(IntegrityViolation)
    else
      var document := Document(db.knowledgeBases[kb].tenant, kb, filename, hash, 1, Active, false);
      Commit(db.(documents := db.documents[freshId := document], versions := db.versions[(freshId, 1) := true],
                 hashes := db.hashes[(freshId, 1) := hash]),
             Registration(freshId, 1, true))
  }

  /** `chosen` is the row a query returned; a query that matches nothing ignores it. */
  function RegisterDocument(db: Db, kb: Id, filename: string, hash: string, chosen: Id, freshId: Id): Tx<Registration>
  {
    if kb !in db.knowledgeBases || db.knowledgeBases[kb].deleted then Abort(NotFound)
    else if exists d | d in db.documents :: HasContent(db, kb, hash, d) then
      if !HasContent(db, kb, hash, chosen) then Abort(NotFound)
      else if (chosen, db.documents[chosen].currentVersion) !in db.versions then Abort(MissingMetadata)
      else Commit(db, Registration(chosen, db.documents[chosen].currentVersion, false))
    else if exists d | d in db.documents :: HasFilename(db, kb, filename, d) then
      if !IsPrevious(db, kb, filename, chosen) then Abort(NotFound)
      else AddVersion(db, hash, chosen)
    else AddDocument(db, kb, filename, hash, freshId)
  }
}
