/** What the transactions keep true of documents and their versions. */
module VersionRegistry {
  import opened Transactions

  /** The version numbers of a document are exactly 1..n. */
  ghost predicate Numbered(db: Db, documentId: Id, n: nat) {
    forall v: nat :: (documentId, v) in db.versions <==> 1 <= v <= n
  }

  /** Exactly one version of the document is active: the one numbered `current_version`. */
  ghost predicate OneActive(db: Db, documentId: Id)
    requires documentId in db.documents
  {
    && (documentId, db.documents[documentId].currentVersion) in db.versions
    && forall v: nat | (documentId, v) in db.versions ::
         db.versions[(documentId, v)] <==> v == db.documents[documentId].currentVersion
  }

  ghost predicate WellVersioned(db: Db, documentId: Id)
    requires documentId in db.documents
  {
    OneActive(db, documentId) && exists n: nat :: Numbered(db, documentId, n)
  }

  ghost predicate UniqueFilenames(db: Db) {
    forall d, e | d in db.documents && e in db.documents && d != e && Live(db, d) && Live(db, e) ::
      db.documents[d].knowledgeBase == db.documents[e].knowledgeBase ==> db.documents[d].filename != db.documents[e].filename
  }

  ghost predicate UniqueHashes(db: Db) {
    forall d, e | d in db.documents && e in db.documents && d != e ::
      db.documents[d].knowledgeBase == db.documents[e].knowledgeBase ==> db.documents[d].contentHash != db.documents[e].contentHash
  }

  /** The partial unique index `uq_document_active_version`. */
  ghost predicate ActiveIndex(db: Db) {
    forall d: Id, v: nat, w: nat | (d, v) in db.versions && (d, w) in db.versions ::
      db.versions[(d, v)] && db.versions[(d, w)] ==> v == w
  }

  ghost predicate OwnedVersions(db: Db) {
    forall d: Id, v: nat :: (d, v) in db.versions ==> d in db.documents
  }

  ghost predicate AllWellVersioned(db: Db) {
    forall d | d in db.documents && Live(db, d) :: WellVersioned(db, d)
  }

  /** A deleted knowledge base holds no live document. */
  ghost predicate LiveHomes(db: Db) {
    forall d | d in db.documents && Live(db, d) ::
      db.documents[d].knowledgeBase in db.knowledgeBases && !db.knowledgeBases[db.documents[d].knowledgeBase].deleted
  }

  ghost predicate RegistryInvariant(db: Db) {
    && OwnedVersions(db) && AllWellVersioned(db) && LiveHomes(db)
    && UniqueFilenames(db) && UniqueHashes(db) && ActiveIndex(db)
  }

  /** Writing the rows of one document leaves every other document well versioned. */
  lemma OthersStayWellVersioned(db: Db, db': Db, documentId: Id)
    requires AllWellVersioned(db)
    requires forall d | d in db'.documents && d != documentId :: d in db.documents && db'.documents[d] == db.documents[d]
    requires forall d: Id, v: nat | d != documentId :: (d, v) in db'.versions <==> (d, v) in db.versions
    requires forall d: Id, v: nat | d != documentId && (d, v) in db.versions :: db'.versions[(d, v)] == db.versions[(d, v)]
    ensures forall d | d in db'.documents && d != documentId && Live(db', d) :: WellVersioned(db', d)
  {
    forall d | d in db'.documents && d != documentId && Live(db', d)
      ensures WellVersioned(db', d)
    {
      assert Live(db, d);
      var m: nat :| Numbered(db, d, m);
      assert Numbered(db', d, m);
    }
  }

  lemma AddVersionKeepsActive(db: Db, hash: string, previous: Id)
    requires ActiveIndex(db) && previous in db.documents && AddVersion(db, hash, previous).Commit?
    ensures ActiveIndex(AddVersion(db, hash, previous).db)
  {
  }

  lemma AddVersionKeepsVersions(db: Db, hash: string, previous: Id)
    requires RegistryInvariant(db) && Live(db, previous) && AddVersion(db, hash, previous).Commit?
    ensures AllWellVersioned(AddVersion(db, hash, previous).db)
  {
    var db' := AddVersion(db, hash, previous).db;
    OthersStayWellVersioned(db, db', previous);
    assert WellVersioned(db, previous);
    var n: nat :| Numbered(db, previous, n);
    assert Numbered(db', previous, n + 1);
  }

  lemma AddVersionKeepsRegistry(db: Db, hash: string, previous: Id)
    requires RegistryInvariant(db) && Live(db, previous)
    ensures RegistryInvariant(After(db, AddVersion(db, hash, previous)))
  {
    if AddVersion(db, hash, previous).Commit? {
      AddVersionKeepsVersions(db, hash, previous);
      AddVersionKeepsActive(db, hash, previous);
    }
  }

  lemma AddDocumentKeepsRegistry(db: Db, kb: Id, filename: string, hash: string, freshId: Id)
    requires RegistryInvariant(db) && kb in db.knowledgeBases && !db.knowledgeBases[kb].deleted
    requires !exists d | d in db.documents :: HasFilename(db, kb, filename, d)
    ensures RegistryInvariant(After(db, AddDocument(db, kb, filename, hash, freshId)))
  {
    var tx := AddDocument(db, kb, filename, hash, freshId);
    if tx.Commit? {
      OthersStayWellVersioned(db, tx.db, freshId);
      assert Numbered(tx.db, freshId, 1);
    }
  }

  lemma RegisterKeepsRegistry(db: Db, kb: Id, filename: string, hash: string, chosen: Id, freshId: Id)
    requires RegistryInvariant(db)
    ensures RegistryInvariant(After(db, RegisterDocument(db, kb, filename, hash, chosen, freshId)))
  {
    if kb in db.knowledgeBases && !db.knowledgeBases[kb].deleted {
      if IsPrevious(db, kb, filename, chosen) {
        AddVersionKeepsRegistry(db, hash, chosen);
      }
      if !exists d | d in db.documents :: HasFilename(db, kb, filename, d) {
        AddDocumentKeepsRegistry(db, kb, filename, hash, freshId);
      }
    }
  }

  lemma ActivateKeepsRegistry(db: Db, documentId: Id, version: nat, tenant: Id)
    requires RegistryInvariant(db)
    ensures RegistryInvariant(After(db, ActivateVersion(db, documentId, version, tenant)))
  {
    var tx := ActivateVersion(db, documentId, version, tenant);
    if tx.Commit? {
      OthersStayWellVersioned(db, tx.db, documentId);
      var m: nat :| Numbered(db, documentId, m);
      assert Numbered(tx.db, documentId, m);
    }
  }

  /** Transactions that at most delete documents, switch versions of deleted documents off,
      or write columns the registry does not look at. */
  ghost predicate OnlyRetires(db: Db, db': Db) {
    && db'.versions.Keys == db.versions.Keys && db'.hashes == db.hashes
    && db'.documents.Keys == db.documents.Keys
    && db'.knowledgeBases.Keys == db.knowledgeBases.Keys
    && (forall d | d in db.documents ::
          && db'.documents[d].knowledgeBase == db.documents[d].knowledgeBase
          && db'.documents[d].filename == db.documents[d].filename
          && db'.documents[d].contentHash == db.documents[d].contentHash
          && db'.documents[d].currentVersion == db.documents[d].currentVersion
          && (db.documents[d].deleted ==> db'.documents[d].deleted))
    && (forall k | k in db.knowledgeBases :: db'.knowledgeBases[k].deleted ==>
          db.knowledgeBases[k].deleted
          || forall d | d in db'.documents :: db'.documents[d].knowledgeBase == k ==> db'.documents[d].deleted)
    && (forall key | key in db.versions :: db'.versions[key] ==> db.versions[key])
    && (forall key | key in db.versions && key.0 in db.documents && Live(db', key.0) :: db'.versions[key] == db.versions[key])
  }

  lemma RetiringKeepsRegistry(db: Db, db': Db)
    requires RegistryInvariant(db) && OnlyRetires(db, db')
    ensures RegistryInvariant(db')
  {
    assert forall key :: key in db'.versions <==> key in db.versions.Keys;
    assert forall d :: d in db'.documents <==> d in db.documents.Keys;
    assert forall k :: k in db'.knowledgeBases <==> k in db.knowledgeBases.Keys;
    forall d | d in db'.documents && Live(db', d)
      ensures WellVersioned(db', d)
    {
      assert Live(db, d);
      var m: nat :| Numbered(db, d, m);
      assert Numbered(db', d, m);
    }
  }
}
