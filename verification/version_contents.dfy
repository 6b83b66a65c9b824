/** Which content a version row holds, and what an upload of known content is answered with. */
module VersionContents {
  import opened Transactions
  import opened VersionRegistry
  import opened RegistryTheorems
  import opened Protocol

  /** The latest version carries the document's content hash. */
  ghost predicate LatestIsCurrent(db: Db) {
    forall d: Id, n: nat | d in db.documents && n >= 1 && Numbered(db, d, n) ::
      (d, n) in db.hashes && db.hashes[(d, n)] == db.documents[d].contentHash
  }

  ghost predicate NeighboursDiffer(db: Db) {
    forall d: Id, v: nat | (d, v) in db.versions && (d, v + 1) in db.versions ::
      (d, v) in db.hashes && (d, v + 1) in db.hashes && db.hashes[(d, v)] != db.hashes[(d, v + 1)]
  }

  /** Every version row has its hash, the latest one that of the document, and no two neighbours the same. */
  ghost predicate ContentInvariant(db: Db) {
    db.hashes.Keys == db.versions.Keys && LatestIsCurrent(db) && NeighboursDiffer(db)
  }

  lemma OneNumber(db: Db, d: Id, m: nat, n: nat)
    requires Numbered(db, d, m) && Numbered(db, d, n)
    ensures m == n
  {
    assert m >= 1 ==> (d, m) in db.versions;
    assert n >= 1 ==> (d, n) in db.versions;
  }

  lemma SameNumbers(db: Db, db': Db, d: Id, n: nat)
    requires forall v: nat :: (d, v) in db'.versions <==> (d, v) in db.versions
    ensures Numbered(db', d, n) <==> Numbered(db, d, n)
  {
  }

  lemma AddVersionKeepsLatest(db: Db, hash: string, previous: Id, n: nat)
    requires ContentInvariant(db) && Live(db, previous) && Numbered(db, previous, n)
    requires db.documents[previous].currentVersion == n && AddVersion(db, hash, previous).Commit?
    ensures LatestIsCurrent(AddVersion(db, hash, previous).db)
  {
    var db' := AddVersion(db, hash, previous).db;
    assert Numbered(db', previous, n + 1);
    forall d: Id, m: nat | d in db'.documents && m >= 1 && Numbered(db', d, m)
      ensures (d, m) in db'.hashes && db'.hashes[(d, m)] == db'.documents[d].contentHash
    {
      if d == previous {
        OneNumber(db', d, m, n + 1);
      } else {
        SameNumbers(db, db', d, m);
      }
    }
  }

  lemma AddVersionKeepsNeighbours(db: Db, hash: string, previous: Id, n: nat)
    requires ContentInvariant(db) && Live(db, previous) && Numbered(db, previous, n) && n >= 1
    requires db.documents[previous].contentHash != hash && db.documents[previous].currentVersion == n
    requires AddVersion(db, hash, previous).Commit?
    ensures NeighboursDiffer(AddVersion(db, hash, previous).db)
  {
    var db' := AddVersion(db, hash, previous).db;
    assert (previous, n) in db.versions;
    forall d: Id, v: nat | (d, v) in db'.versions && (d, v + 1) in db'.versions
      ensures (d, v) in db'.hashes && (d, v + 1) in db'.hashes && db'.hashes[(d, v)] != db'.hashes[(d, v + 1)]
    {
      assert d == previous ==> v + 1 <= n + 1;
      if d != previous || v + 1 <= n {
        assert (d, v) in db.versions && (d, v + 1) in db.versions;
      }
    }
  }

  lemma AddVersionKeepsContents(db: Db, hash: string, previous: Id, n: nat)
    requires ContentInvariant(db) && Live(db, previous) && Numbered(db, previous, n) && n >= 1
    requires db.documents[previous].contentHash != hash && db.documents[previous].currentVersion == n
    ensures ContentInvariant(After(db, AddVersion(db, hash, previous)))
  {
    if AddVersion(db, hash, previous).Commit? {
      AddVersionKeepsLatest(db, hash, previous, n);
      AddVersionKeepsNeighbours(db, hash, previous, n);
    }
  }

  lemma AddDocumentKeepsContents(db: Db, kb: Id, filename: string, hash: string, freshId: Id)
    requires ContentInvariant(db) && OwnedVersions(db) && kb in db.knowledgeBases
    ensures ContentInvariant(After(db, AddDocument(db, kb, filename, hash, freshId)))
  {
    var tx := AddDocument(db, kb, filename, hash, freshId);
    if tx.Commit? {
      assert Numbered(tx.db, freshId, 1);
      forall d: Id, m: nat | d in tx.db.documents && m >= 1 && Numbered(tx.db, d, m)
        ensures (d, m) in tx.db.hashes && tx.db.hashes[(d, m)] == tx.db.documents[d].contentHash
      {
        if d == freshId {
          OneNumber(tx.db, d, m, 1);
        } else {
          SameNumbers(db, tx.db, d, m);
        }
      }
      forall d: Id, v: nat | (d, v) in tx.db.versions && (d, v + 1) in tx.db.versions
        ensures (d, v) in tx.db.hashes && (d, v + 1) in tx.db.hashes && tx.db.hashes[(d, v)] != tx.db.hashes[(d, v + 1)]
      {
        assert d != freshId;
      }
    }
  }

  lemma RegisterKeepsContents(db: Db, kb: Id, filename: string, hash: string, chosen: Id, freshId: Id)
    requires RegistryInvariant(db) && ContentInvariant(db)
    ensures ContentInvariant(After(db, RegisterDocument(db, kb, filename, hash, chosen, freshId)))
  {
    var tx := RegisterDocument(db, kb, filename, hash, chosen, freshId);
    if tx.Commit? && tx.result.created {
      if exists d | d in db.documents :: HasFilename(db, kb, filename, d) {
        assert !HasContent(db, kb, hash, chosen) && WellVersioned(db, chosen);
        var n: nat :| Numbered(db, chosen, n);
        assert 1 <= db.documents[chosen].currentVersion <= n;
        assert db.documents[chosen].currentVersion == n;
        AddVersionKeepsContents(db, hash, chosen, n);
      } else {
        AddDocumentKeepsContents(db, kb, filename, hash, freshId);
      }
    }
  }

  /** Transactions that leave version keys, hashes and content hashes alone. */
  lemma SameContentsKeep(db: Db, db': Db)
    requires ContentInvariant(db) && db'.versions.Keys == db.versions.Keys && db'.hashes == db.hashes
    requires db'.documents.Keys == db.documents.Keys
    requires forall d | d in db.documents :: db'.documents[d].contentHash == db.documents[d].contentHash
    ensures ContentInvariant(db')
  {
    assert forall key :: key in db'.versions <==> key in db.versions.Keys;
    forall d: Id, n: nat | d in db'.documents && n >= 1 && Numbered(db', d, n)
      ensures (d, n) in db'.hashes && db'.hashes[(d, n)] == db'.documents[d].contentHash
    {
      assert d in db.documents.Keys;
      SameNumbers(db, db', d, n);
    }
  }

  lemma StepKeepsContents(s: State, step: Step)
    requires RegistryInvariant(s.db) && ContentInvariant(s.db)
    ensures ContentInvariant(Next(s, step).db)
  {
    match step
    case Register(kb, f, h, chosen, id) => RegisterKeepsContents(s.db, kb, f, h, chosen, id);
    case Activate(_, _, _) => SameContentsKeep(s.db, Next(s, step).db);
    case _ =>
      StepRetires(s, step);
      SameContentsKeep(s.db, Next(s, step).db);
  }

  /** After every run the latest version of a document carries its content hash, and neighbours differ. */
  lemma {:induction false} RunsKeepContents(s: State, steps: seq<Step>)
    requires Initial(s)
    ensures RegistryInvariant(Execute(s, steps).db) && ContentInvariant(Execute(s, steps).db)
  {
    RunsKeepRegistry(s, steps);
    if |steps| > 0 {
      RunsKeepContents(s, steps[..|steps| - 1]);
      StepKeepsContents(Execute(s, steps[..|steps| - 1]), steps[|steps| - 1]);
    }
  }

  /** Known content is answered with the active version. That version carries the uploaded content exactly when
      it holds the same content as the latest one: always when the document is not rolled back, never when it is
      rolled back by one version. */
  lemma KnownContentIsAnsweredWithItself(db: Db, kb: Id, filename: string, hash: string, existing: Id, freshId: Id, n: nat)
    requires RegistryInvariant(db) && ContentInvariant(db) && HasContent(db, kb, hash, existing) && Numbered(db, existing, n)
    ensures RegisterDocument(db, kb, filename, hash, existing, freshId).Commit?
    ensures var version := RegisterDocument(db, kb, filename, hash, existing, freshId).result.version;
            && (existing, version) in db.hashes && (existing, n) in db.hashes
            && (db.hashes[(existing, version)] == hash <==> db.hashes[(existing, version)] == db.hashes[(existing, n)])
            && (!RolledBack(db, existing) ==> db.hashes[(existing, version)] == hash)
            && (version + 1 == n ==> db.hashes[(existing, version)] != hash)
  {
    SameContentIsReused(db, kb, filename, hash, existing, freshId);
    assert WellVersioned(db, existing);
    var current := db.documents[existing].currentVersion;
    assert (existing, current) in db.versions.Keys && 1 <= current <= n;
    assert (existing, n) in db.versions;
    if !RolledBack(db, existing) {
      assert current == n;
    }
  }
}
