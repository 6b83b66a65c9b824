/** Runs in which the version registry gives less than an uploader would expect. */
module RegistryLimits {
  import opened Wrappers
  import opened Transactions
  import opened Protocol
  import opened RegistryTheorems
  import opened CleanupLimits

  function DocumentRow(hash: string, current: nat, lifecycle: Lifecycle, deleted: bool): Document {
    Document("t", "kb", "f", hash, current, lifecycle, deleted)
  }

  const BASES: map<Id, KnowledgeBase> := map["kb" := KnowledgeBase("t", false)]

  /** "f" has been uploaded once, with content "h1". */
  const UPLOADED: Db :=
    Db(BASES, map["d" := DocumentRow("h1", 1, Active, false)], map[("d", 1) := true], map[("d", 1) := "h1"], map[])

  /** "f" has been uploaded twice, with contents "h1" and "h2". */
  const CHANGED: Db :=
    Db(BASES, map["d" := DocumentRow("h2", 2, Active, false)], map[("d", 1) := false, ("d", 2) := true],
       map[("d", 1) := "h1", ("d", 2) := "h2"], map[])

  /** Then version 1 has been activated again. */
  const ROLLED_BACK: Db := CHANGED.(
    documents := map["d" := DocumentRow("h2", 1, Active, false)], versions := map[("d", 1) := true, ("d", 2) := false])

  lemma FirstUpload(n: nat)
    ensures Next(Fresh(n), Register("kb", "f", "h1", "", "d")).db == UPLOADED
  {
  }

  lemma SecondUpload(s: State)
    requires s.db == UPLOADED
    ensures Next(s, Register("kb", "f", "h2", "d", "x")).db == CHANGED
  {
    assert "d" in s.db.documents && HasFilename(s.db, "kb", "f", "d") && IsPrevious(s.db, "kb", "f", "d");
  }

  lemma ActivateFirst(s: State)
    requires s.db == CHANGED
    ensures Next(s, Activate("d", 1, "t")).db == ROLLED_BACK
  {
  }

  lemma UploadedRun() returns (steps: seq<Step>)
    ensures Initial(Fresh(5)) && Execute(Fresh(5), steps).db == UPLOADED && Execute(Fresh(5), steps).workers == map[]
    ensures Execute(Fresh(5), steps).settings == Fresh(5).settings
  {
    var step := Register("kb", "f", "h1", "", "d");
    Extend(Fresh(5), [], step);
    FirstUpload(5);
    steps := [] + [step];
  }

  lemma ChangedRun() returns (steps: seq<Step>)
    ensures Initial(Fresh(5)) && Execute(Fresh(5), steps).db == CHANGED
  {
    steps := UploadedRun();
    SecondUpload(Execute(Fresh(5), steps));
    Extend(Fresh(5), steps, Register("kb", "f", "h2", "d", "x"));
    steps := steps + [Register("kb", "f", "h2", "d", "x")];
  }

  lemma RolledBackRun() returns (steps: seq<Step>)
    ensures Initial(Fresh(5)) && Execute(Fresh(5), steps).db == ROLLED_BACK
  {
    steps := ChangedRun();
    ActivateFirst(Execute(Fresh(5), steps));
    Extend(Fresh(5), steps, Activate("d", 1, "t"));
    steps := steps + [Activate("d", 1, "t")];
  }

  lemma FindsRolledBack(db: Db)
    requires db == ROLLED_BACK
    ensures RegisterDocument(db, "kb", "f", "h3", "d", "x") == Abort(IntegrityViolation)
    ensures RegisterDocument(db, "kb", "f", "h2", "d", "x") == Commit(db, Registration("d", 1, false))
    ensures RolledBack(db, "d") && db.hashes[("d", 1)] == "h1"
  {
    assert "d" in db.documents && HasFilename(db, "kb", "f", "d") && IsPrevious(db, "kb", "f", "d");
    assert HasContent(db, "kb", "h2", "d");
    assert ("d", 2) in db.versions;
    assert forall d | d in db.documents :: !HasContent(db, "kb", "h3", d);
  }

  /** Upload, upload changed, roll back: the next changed upload is refused, and uploading the second content
      again is answered with version 1, which holds the first. */
  lemma RollbackRefusesAndMisleads() returns (s: State, steps: seq<Step>)
    ensures Initial(s)
    ensures var db := Execute(s, steps).db;
            && RegisterDocument(db, "kb", "f", "h3", "d", "x") == Abort(IntegrityViolation)
            && RegisterDocument(db, "kb", "f", "h2", "d", "x") == Commit(db, Registration("d", 1, false))
            && ("d", 1) in db.hashes && db.hashes[("d", 1)] == "h1"
  {
    s := Fresh(5);
    steps := RolledBackRun();
    FindsRolledBack(ROLLED_BACK);
  }

  lemma RefusedForDeleted(s: State)
    requires s.db == UPLOADED
    ensures var db := Next(s, RemoveDocument("d")).db;
            && OwnedByDeleted(db, "kb", "h1")
            && RegisterDocument(db, "kb", "f", "h1", "", "x") == Abort(IntegrityViolation)
  {
    var db := Next(s, RemoveDocument("d")).db;
    assert "d" in db.documents && db.documents["d"].deleted;
    assert forall d | d in db.documents :: !HasContent(db, "kb", "h1", d) && !HasFilename(db, "kb", "f", d);
    assert HashTaken(db, "kb", "h1", "x");
  }

  /** Upload, delete, upload the same file again: refused. */
  lemma DeletedContentIsRefused() returns (s: State, steps: seq<Step>)
    ensures Initial(s)
    ensures RegisterDocument(Execute(s, steps).db, "kb", "f", "h1", "", "x") == Abort(IntegrityViolation)
    ensures !exists d | d in Execute(s, steps).db.documents :: HasFilename(Execute(s, steps).db, "kb", "f", d)
  {
    s := Fresh(5);
    steps := UploadedRun();
    RefusedForDeleted(Execute(s, steps));
    Extend(s, steps, RemoveDocument("d"));
    steps := steps + [RemoveDocument("d")];
  }

  /** The deletion of "d" has been requested, and then "f" has been uploaded with content "h2". */
  const LEAVING: Db :=
    Db(BASES, map["d" := DocumentRow("h2", 2, Deleting, false)], map[("d", 1) := false, ("d", 2) := true],
       map[("d", 1) := "h1", ("d", 2) := "h2"], map["e" := Event("t", "d", Pending, [], 0, 5, None, None)])

  lemma RequestThenUpload(s: State)
    requires s.db == UPLOADED && s.settings == Fresh(5).settings
    ensures Next(Next(s, Request("d", "t", "e")), Register("kb", "f", "h2", "d", "x")) == s.(db := LEAVING)
    ensures RegisterDocument(Next(s, Request("d", "t", "e")).db, "kb", "f", "h2", "d", "x")
         == Commit(LEAVING, Registration("d", 2, true))
  {
    var db := Next(s, Request("d", "t", "e")).db;
    assert "d" in db.documents && HasFilename(db, "kb", "f", "d") && IsPrevious(db, "kb", "f", "d");
  }

  lemma LeavingRun() returns (before: seq<Step>, steps: seq<Step>)
    ensures Initial(Fresh(5)) && steps == before + [Register("kb", "f", "h2", "d", "x")]
    ensures RegisterDocument(Execute(Fresh(5), before).db, "kb", "f", "h2", "d", "x")
         == Commit(LEAVING, Registration("d", 2, true))
    ensures Execute(Fresh(5), steps).db == LEAVING && Execute(Fresh(5), steps).workers == map[]
  {
    var first := UploadedRun();
    RequestThenUpload(Execute(Fresh(5), first));
    Extend(Fresh(5), first, Request("d", "t", "e"));
    before := first + [Request("d", "t", "e")];
    Extend(Fresh(5), before, Register("kb", "f", "h2", "d", "x"));
    steps := before + [Register("kb", "f", "h2", "d", "x")];
  }

  lemma WorkerAcquires(s: State)
    requires s.db == LEAVING && s.workers == map[]
    ensures var acquired := Next(Next(s, Look("w", "e", "t")), Acquire("w"));
            && WorkerAt(acquired, "w") == Working("e", "t", [], 0, Loading)
            && acquired.db == LEAVING.(events := map["e" := Event("t", "d", Processing, [], 1, 5, None, None)])
  {
  }

  lemma WorkerStarts(s: State)
    requires s.db == LEAVING && s.workers == map[]
    ensures var started := Next(Next(Next(s, Look("w", "e", "t")), Acquire("w")), LoadContext("w", true));
            && AtHead(started, 0) && started.db.documents == LEAVING.documents
            && started.db.versions == LEAVING.versions && started.db.events["e"].document == "d"
  {
    WorkerAcquires(s);
  }

  lemma FinalizesLeaving(db: Db)
    requires db.documents == LEAVING.documents && db.versions == LEAVING.versions
    requires EventVisible(db, "e", "t") && db.events["e"].status == Processing && db.events["e"].document == "d"
    ensures var done := After(db, FinalizeDeletion(db, "e", "t"));
            && done.documents == map["d" := DocumentRow("h2", 2, Deleted, true)]
            && done.versions == map[("d", 1) := false, ("d", 2) := false]
  {
  }

  lemma DeletesTheDocument(s: State)
    requires AtHead(s, 3) && s.db.documents == LEAVING.documents && s.db.versions == LEAVING.versions
    requires s.db.events["e"].document == "d"
    ensures var db := Next(s, Save("w", true)).db;
            && db.documents == map["d" := DocumentRow("h2", 2, Deleted, true)]
            && db.versions == map[("d", 1) := false, ("d", 2) := false]
  {
    FinalizesLeaving(s.db);
    assert Next(s, Save("w", true)).db == After(s.db, FinalizeDeletion(s.db, "e", "t"));
  }

  lemma StartedRun(steps: seq<Step>) returns (longer: seq<Step>)
    requires Execute(Fresh(5), steps).db == LEAVING && Execute(Fresh(5), steps).workers == map[]
    ensures steps <= longer && AtHead(Execute(Fresh(5), longer), 0)
    ensures var db := Execute(Fresh(5), longer).db;
            db.documents == LEAVING.documents && db.versions == LEAVING.versions && db.events["e"].document == "d"
  {
    WorkerStarts(Execute(Fresh(5), steps));
    Extend(Fresh(5), steps, Look("w", "e", "t"));
    longer := steps + [Look("w", "e", "t")];
    Extend(Fresh(5), longer, Acquire("w"));
    longer := longer + [Acquire("w")];
    Extend(Fresh(5), longer, LoadContext("w", true));
    longer := longer + [LoadContext("w", true)];
  }

  /** A user asks for deletion, then uploads a new version of the file: the upload is accepted as version 2, and
      the cleanup that follows deletes it with the document. */
  lemma AcceptedUploadIsDeleted() returns (s: State, before: seq<Step>, steps: seq<Step>)
    ensures Initial(s) && before + [Register("kb", "f", "h2", "d", "x")] <= steps
    ensures RegisterDocument(Execute(s, before).db, "kb", "f", "h2", "d", "x")
         == Commit(LEAVING, Registration("d", 2, true))
    ensures Execute(s, steps).db.documents == map["d" := DocumentRow("h2", 2, Deleted, true)]
    ensures Execute(s, steps).db.versions == map[("d", 1) := false, ("d", 2) := false]
  {
    s := Fresh(5);
    before, steps := LeavingRun();
    steps := StartedRun(steps);
    steps := StageRun(s, steps, 0);
    steps := StageRun(s, steps, 1);
    steps := StageRun(s, steps, 2);
    DeletesTheDocument(Execute(s, steps));
    Extend(s, steps, Save("w", true));
    steps := steps + [Save("w", true)];
  }

  /** "f" has been uploaded with contents "h1", "h2" and "h1" again. */
  const REPEATED: Db :=
    Db(BASES, map["d" := DocumentRow("h1", 3, Active, false)], map[("d", 1) := false, ("d", 2) := false, ("d", 3) := true],
       map[("d", 1) := "h1", ("d", 2) := "h2", ("d", 3) := "h1"], map[])

  lemma ThirdUpload(s: State)
    requires s.db == CHANGED
    ensures Next(s, Register("kb", "f", "h1", "d", "x")).db == REPEATED
  {
    assert "d" in s.db.documents && HasFilename(s.db, "kb", "f", "d") && IsPrevious(s.db, "kb", "f", "d");
  }

  lemma RolledBackByTwo(s: State)
    requires s.db == REPEATED
    ensures var db := Next(s, Activate("d", 1, "t")).db;
            && "d" in db.documents && RolledBack(db, "d") && ("d", 1) in db.hashes && db.hashes[("d", 1)] == "h1"
            && RegisterDocument(db, "kb", "f", "h1", "d", "x") == Commit(db, Registration("d", 1, false))
  {
    var db := Next(s, Activate("d", 1, "t")).db;
    assert ("d", 3) in db.versions;
    assert "d" in db.documents && HasContent(db, "kb", "h1", "d");
  }

  /** A rolled-back document may still be answered with the right content: when an old version is repeated. */
  lemma RolledBackToTheSameContent() returns (s: State, steps: seq<Step>)
    ensures Initial(s)
    ensures var db := Execute(s, steps).db;
            && "d" in db.documents && RolledBack(db, "d") && ("d", 1) in db.hashes && db.hashes[("d", 1)] == "h1"
            && RegisterDocument(db, "kb", "f", "h1", "d", "x") == Commit(db, Registration("d", 1, false))
  {
    s := Fresh(5);
    steps := ChangedRun();
    ThirdUpload(Execute(s, steps));
    Extend(s, steps, Register("kb", "f", "h1", "d", "x"));
    steps := steps + [Register("kb", "f", "h1", "d", "x")];
    RolledBackByTwo(Execute(s, steps));
    Extend(s, steps, Activate("d", 1, "t"));
    steps := steps + [Activate("d", 1, "t")];
  }
}
