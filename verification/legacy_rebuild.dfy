/** Rebuilding a fixed-schema collection by rename and copy. */
module LegacyRebuild {
  import opened Basics
  import opened Wrappers
  import opened CollectionServer

  const DEFAULT_TENANT := "00000000-0000-0000-0000-000000000100"
  const DEFAULT_KNOWLEDGE_BASE := "00000000-0000-0000-0000-000000000010"

  /** Digest, text rendering and clock are the environment's. */
  datatype Environment = Environment(digest: string -> string, render: Value -> string, now: string)

  function LegacyMetadata(row: Row, index: nat, env: Environment): Row {
    map[
      "tenant_id" := Text(DEFAULT_TENANT),
      "knowledge_base_id" := Text(DEFAULT_KNOWLEDGE_BASE),
      "document_id" := Text(""),
      "document_version" := Number(1),
      "file_name" := Text(TextOr(row, "file_title", "", env.render)),
      "page_number" := Null,
      "section_title" := Text(TextOr(row, "title", TextOr(row, "parent_title", "", env.render), env.render)),
      "parent_chunk_id" := Null,
      "chunk_index" := Number(index),
      "item_aliases" := Texts([]),
      "content_hash" := Text(env.digest(TextOr(row, "content", "", env.render))),
      "parser_version" := Text("legacy"),
      "permission_scope" := Text("private"),
      "created_at" := Text(env.now),
      "is_active" := Flag(true)]
  }

  /** What the server generates itself is not copied. */
  function WithoutGenerated(row: Row, generated: Option<string>): Row {
    if generated.Some? then row - {generated.value} else row
  }

  /** A copy of the row in which only missing fields have been filled in. */
  ghost predicate OnlyFilledIn(original: Row, copy: Row, generated: Option<string>, metadata: Row) {
    && (forall k | k in original && generated != Some(k) :: k in copy && copy[k] == original[k])
    && (forall k | k in copy && (k !in original || generated == Some(k)) :: k in metadata && copy[k] == metadata[k])
    && (forall k | k in metadata :: k in copy)
  }

  /** The copies `copies` of the rows from position `start` on. */
  ghost predicate CopyFrom(rows: seq<Row>, start: nat, copies: seq<Row>, generated: Option<string>, env: Environment) {
    && start + |copies| <= |rows|
    && forall i | 0 <= i < |copies| :: OnlyFilledIn(rows[start + i], copies[i], generated,
         LegacyMetadata(WithoutGenerated(rows[start + i], generated), start + i, env))
  }

  ghost predicate CopyOf(rows: seq<Row>, copies: seq<Row>, generated: Option<string>, env: Environment) {
    |copies| == |rows| && CopyFrom(rows, 0, copies, generated, env)
  }

  // ------------------------------------------- what a rebuilt row has to hold

  predicate Own(row: Row, generated: Option<string>, key: string) {
    key in row && generated != Some(key)
  }

  /** The text of an own field, if it has one. */
  function OwnText(row: Row, generated: Option<string>, key: string, default: string, env: Environment): string {
    if Own(row, generated, key) && Truthy(row[key]) then env.render(row[key]) else default
  }

  /** A field of the copy: the row's own value or, without one, the given value. */
  ghost predicate Holds(row: Row, copy: Row, generated: Option<string>, key: string, value: Value) {
    key in copy && copy[key] == if Own(row, generated, key) then row[key] else value
  }

  /** The copy belongs to the default tenant and base, and is private and active. */
  ghost predicate BelongsToDefault(row: Row, copy: Row, generated: Option<string>) {
    && Holds(row, copy, generated, "tenant_id", Text(DEFAULT_TENANT))
    && Holds(row, copy, generated, "knowledge_base_id", Text(DEFAULT_KNOWLEDGE_BASE))
    && Holds(row, copy, generated, "permission_scope", Text("private"))
    && Holds(row, copy, generated, "is_active", Flag(true))
  }

  /** Its names come from the row. */
  ghost predicate NamedByRow(row: Row, copy: Row, generated: Option<string>, env: Environment) {
    && Holds(row, copy, generated, "file_name", Text(OwnText(row, generated, "file_title", "", env)))
    && Holds(row, copy, generated, "section_title",
             Text(OwnText(row, generated, "title", OwnText(row, generated, "parent_title", "", env), env)))
  }

  /** So do its content hash and its position. */
  ghost predicate DescribedByRow(row: Row, copy: Row, generated: Option<string>, index: nat, env: Environment) {
    && Holds(row, copy, generated, "content_hash", Text(env.digest(OwnText(row, generated, "content", "", env))))
    && Holds(row, copy, generated, "chunk_index", Number(index))
  }

  ghost predicate MarkedAsLegacy(row: Row, copy: Row, generated: Option<string>, env: Environment) {
    && Holds(row, copy, generated, "parser_version", Text("legacy"))
    && Holds(row, copy, generated, "created_at", Text(env.now))
    && Holds(row, copy, generated, "page_number", Null) && Holds(row, copy, generated, "parent_chunk_id", Null)
    && Holds(row, copy, generated, "item_aliases", Texts([]))
  }

  ghost predicate OfNoDocument(row: Row, copy: Row, generated: Option<string>) {
    Holds(row, copy, generated, "document_id", Text("")) && Holds(row, copy, generated, "document_version", Number(1))
  }

  /** Own fields are kept, and the metadata of a legacy row is there. */
  ghost predicate RebuiltFrom(row: Row, copy: Row, generated: Option<string>, index: nat, env: Environment) {
    && (forall key | Own(row, generated, key) :: key in copy && copy[key] == row[key])
    && BelongsToDefault(row, copy, generated) && NamedByRow(row, copy, generated, env)
    && OfNoDocument(row, copy, generated) && DescribedByRow(row, copy, generated, index, env) && MarkedAsLegacy(row, copy, generated, env)
  }

  lemma OwnFields(row: Row, generated: Option<string>, key: string, default: string, env: Environment)
    ensures key in WithoutGenerated(row, generated) <==> Own(row, generated, key)
    ensures TextOr(WithoutGenerated(row, generated), key, default, env.render) == OwnText(row, generated, key, default, env)
  {
  }

  lemma FilledHolds(row: Row, copy: Row, generated: Option<string>, metadata: Row, key: string)
    requires OnlyFilledIn(row, copy, generated, metadata) && key in metadata
    ensures Holds(row, copy, generated, key, metadata[key])
  {
  }

  lemma FilledBelongs(row: Row, copy: Row, generated: Option<string>, index: nat, env: Environment)
    requires OnlyFilledIn(row, copy, generated, LegacyMetadata(WithoutGenerated(row, generated), index, env))
    ensures BelongsToDefault(row, copy, generated)
  {
    var metadata := LegacyMetadata(WithoutGenerated(row, generated), index, env);
    FilledHolds(row, copy, generated, metadata, "tenant_id");
    FilledHolds(row, copy, generated, metadata, "knowledge_base_id");
    FilledHolds(row, copy, generated, metadata, "permission_scope");
    FilledHolds(row, copy, generated, metadata, "is_active");
  }

  lemma FilledIsOfNoDocument(row: Row, copy: Row, generated: Option<string>, index: nat, env: Environment)
    requires OnlyFilledIn(row, copy, generated, LegacyMetadata(WithoutGenerated(row, generated), index, env))
    ensures OfNoDocument(row, copy, generated)
  {
    var metadata := LegacyMetadata(WithoutGenerated(row, generated), index, env);
    FilledHolds(row, copy, generated, metadata, "document_id");
    FilledHolds(row, copy, generated, metadata, "document_version");
  }

  lemma FilledIsNamed(row: Row, copy: Row, generated: Option<string>, index: nat, env: Environment)
    requires OnlyFilledIn(row, copy, generated, LegacyMetadata(WithoutGenerated(row, generated), index, env))
    ensures NamedByRow(row, copy, generated, env)
  {
    var metadata := LegacyMetadata(WithoutGenerated(row, generated), index, env);
    OwnFields(row, generated, "file_title", "", env);
    OwnFields(row, generated, "parent_title", "", env);
    OwnFields(row, generated, "title", OwnText(row, generated, "parent_title", "", env), env);
    FilledHolds(row, copy, generated, metadata, "file_name");
    FilledHolds(row, copy, generated, metadata, "section_title");
  }

  lemma FilledDescribes(row: Row, copy: Row, generated: Option<string>, index: nat, env: Environment)
    requires OnlyFilledIn(row, copy, generated, LegacyMetadata(WithoutGenerated(row, generated), index, env))
    ensures DescribedByRow(row, copy, generated, index, env)
  {
    var metadata := LegacyMetadata(WithoutGenerated(row, generated), index, env);
    OwnFields(row, generated, "content", "", env);
    FilledHolds(row, copy, generated, metadata, "content_hash");
    FilledHolds(row, copy, generated, metadata, "chunk_index");
  }

  lemma FilledIsMarked(row: Row, copy: Row, generated: Option<string>, index: nat, env: Environment)
    requires OnlyFilledIn(row, copy, generated, LegacyMetadata(WithoutGenerated(row, generated), index, env))
    ensures MarkedAsLegacy(row, copy, generated, env)
  {
    var metadata := LegacyMetadata(WithoutGenerated(row, generated), index, env);
    FilledHolds(row, copy, generated, metadata, "parser_version");
    FilledHolds(row, copy, generated, metadata, "created_at");
    FilledHolds(row, copy, generated, metadata, "page_number");
    FilledHolds(row, copy, generated, metadata, "parent_chunk_id");
    FilledHolds(row, copy, generated, metadata, "item_aliases");
  }

  lemma CopyIsRebuilt(row: Row, copy: Row, generated: Option<string>, index: nat, env: Environment)
    requires OnlyFilledIn(row, copy, generated, LegacyMetadata(WithoutGenerated(row, generated), index, env))
    ensures RebuiltFrom(row, copy, generated, index, env)
  {
    FilledBelongs(row, copy, generated, index, env);
    FilledIsNamed(row, copy, generated, index, env);
    FilledIsOfNoDocument(row, copy, generated, index, env);
    FilledDescribes(row, copy, generated, index, env);
    FilledIsMarked(row, copy, generated, index, env);
  }

  lemma CopyAt(rows: seq<Row>, copies: seq<Row>, generated: Option<string>, env: Environment, i: nat)
    requires CopyOf(rows, copies, generated, env) && i < |rows|
    ensures OnlyFilledIn(rows[i], copies[i], generated, LegacyMetadata(WithoutGenerated(rows[i], generated), i, env))
  {
    assert rows[0 + i] == rows[i];
  }

  /** Every copied row holds its own fields and the metadata of a legacy row. */
  lemma CopiesAreRebuilt(rows: seq<Row>, copies: seq<Row>, generated: Option<string>, env: Environment)
    requires CopyOf(rows, copies, generated, env)
    ensures forall i | 0 <= i < |rows| :: RebuiltFrom(rows[i], copies[i], generated, i, env)
  {
    forall i | 0 <= i < |rows|
      ensures RebuiltFrom(rows[i], copies[i], generated, i, env)
    {
      CopyAt(rows, copies, generated, env, i);
      CopyIsRebuilt(rows[i], copies[i], generated, i, env);
    }
  }

  /** Which calls fail. `insertFault` is asked once per batch. */
  datatype Faults = Faults(
    release: bool, rename: Fault, create: Fault, insertFault: nat -> Fault, load: bool,
    inspect: bool, drop: Fault, restore: Fault, reload: bool)

  datatype Outcome =
    | Rebuilt              // copied, the original is kept as a backup
    | Unchanged            // failed before the rename took effect
    | Restored             // failed inside the copy and was undone
    | Stranded             // the rename failed after taking effect, or the undo failed too

  /** Some batch from position `start` on cannot be inserted. */
  predicate SomeBatchFails(insertFault: nat -> Fault, start: nat, n: nat)
    decreases if start < n then n - start else 0
  {
    start < n && (!insertFault(start).NoFault? || SomeBatchFails(insertFault, start + BATCH, n))
  }

  /** Creating the collection, copying `n` rows or loading it fails. */
  predicate CopyFails(faults: Faults, n: nat) {
    !faults.create.NoFault? || SomeBatchFails(faults.insertFault, 0, n) || faults.load
  }

  /** A call of the undo fails; the half-finished copy is dropped only when it is there. */
  predicate UndoFails(faults: Faults, created: bool) {
    faults.inspect || (created && !faults.drop.NoFault?) || !faults.restore.NoFault? || faults.reload
  }

  ghost predicate Intact(state: Collections, name: string, backup: string, rows: seq<Row>) {
    (name in state && state[name] == rows) || (backup in state && state[backup] == rows)
  }

  /** From state number `from` on, the server has never been without the original rows. */
  ghost predicate NeverLost(history: seq<Collections>, from: nat, name: string, backup: string, rows: seq<Row>) {
    forall i | from <= i < |history| :: Intact(history[i], name, backup, rows)
  }

  /** `row.setdefault` for every metadata item. */
  method FillIn(original: Row, generated: Option<string>, index: nat, env: Environment) returns (row: Row)
    ensures OnlyFilledIn(original, row, generated, LegacyMetadata(WithoutGenerated(original, generated), index, env))
  {
    row := original;
    if generated.Some? {
      row := row - {generated.value};
    }
    ghost var start := row;
    var metadata := LegacyMetadata(row, index, env);
    var pending := metadata.Keys;
    while pending != {}
      invariant pending <= metadata.Keys
      invariant forall k | k in start :: k in row && row[k] == start[k]
      invariant forall k | k in row && k !in start :: k in metadata && row[k] == metadata[k]
      invariant forall k | k in metadata && k !in pending :: k in row
      decreases pending
    {
      var key :| key in pending;
      row := SetDefault(row, key, metadata[key]);
      pending := pending - {key};
    }
  }

  method MigrateBatch(rows: seq<Row>, start: nat, end: nat, generated: Option<string>, env: Environment)
    returns (migrated: seq<Row>)
    requires start <= end <= |rows|
    ensures |migrated| == end - start && CopyFrom(rows, start, migrated, generated, env)
  {
    migrated := [];
    for offset := start to end
      invariant |migrated| == offset - start && CopyFrom(rows, start, migrated, generated, env)
    {
      var row := FillIn(rows[offset], generated, offset, env);
      migrated := migrated + [row];
    }
  }

  lemma CopyGrows(rows: seq<Row>, done: seq<Row>, batch: seq<Row>, generated: Option<string>, env: Environment)
    requires CopyFrom(rows, 0, done, generated, env) && CopyFrom(rows, |done|, batch, generated, env)
    ensures CopyFrom(rows, 0, done + batch, generated, env)
  {
  }

  /** Copy all rows, one insert per batch of `BATCH`. */
  method CopyRows(server: Server, name: string, rows: seq<Row>, generated: Option<string>, env: Environment,
                  insertFault: nat -> Fault, ghost backup: string, ghost from: nat)
    returns (ok: bool)
    requires name in server.collections && server.collections[name] == [] && name != backup
    requires backup in server.collections && server.collections[backup] == rows
    requires from <= |server.history| && NeverLost(server.history, from, name, backup, rows)
    modifies server
    ensures |server.history| >= old(|server.history|) && NeverLost(server.history, from, name, backup, rows)
    ensures server.collections.Keys == old(server.collections.Keys)
    ensures forall c | c in server.collections && c != name :: server.collections[c] == old(server.collections)[c]
    ensures ok <==> !SomeBatchFails(insertFault, 0, |rows|)
    ensures ok ==> CopyOf(rows, server.collections[name], generated, env)
  {
    var start := 0;
    while start < |rows|
      invariant start <= |rows| && SomeBatchFails(insertFault, start, |rows|) == SomeBatchFails(insertFault, 0, |rows|)
      invariant |server.history| >= old(|server.history|) && NeverLost(server.history, from, name, backup, rows)
      invariant server.collections.Keys == old(server.collections.Keys)
      invariant forall c | c in server.collections && c != name :: server.collections[c] == old(server.collections)[c]
      invariant |server.collections[name]| == start && CopyFrom(rows, 0, server.collections[name], generated, env)
    {
      var end := Min(start + BATCH, |rows|);
      var migrated := MigrateBatch(rows, start, end, generated, env);
      CopyGrows(rows, server.collections[name], migrated, generated, env);
      var inserted := server.Insert(name, migrated, insertFault(start));
      if !inserted {
        return false;
      }
      start := end;
    }
    ok := true;
  }

  /** The body of the `try`: create, copy, load. */
  method CopyInto(server: Server, name: string, rows: seq<Row>, generated: Option<string>, env: Environment,
                  faults: Faults, ghost backup: string, ghost from: nat)
    returns (ok: bool)
    requires name !in server.collections && name != backup
    requires backup in server.collections && server.collections[backup] == rows
    requires from <= |server.history| && NeverLost(server.history, from, name, backup, rows)
    modifies server
    ensures |server.history| >= old(|server.history|) && NeverLost(server.history, from, name, backup, rows)
    ensures server.collections - {name} == old(server.collections)
    ensures ok <==> !CopyFails(faults, |rows|)
    ensures name in server.collections <==> TakesEffect(faults.create)
    ensures ok ==> name in server.collections && CopyOf(rows, server.collections[name], generated, env)
  {
    ok := server.Create(name, faults.create);
    if ok {
      ok := CopyRows(server, name, rows, generated, env, faults.insertFault, backup, from);
    }
    if ok {
      ok := server.Touch(name, faults.load);
    }
  }

  /** Undo a half-finished copy: drop what was created and give the original its name back. */
  method Restore(server: Server, name: string, backup: string, faults: Faults, ghost rows: seq<Row>, ghost from: nat)
    returns (outcome: Outcome)
    requires name != backup && backup in server.collections && server.collections[backup] == rows
    requires from <= |server.history| && NeverLost(server.history, from, name, backup, rows)
    modifies server
    ensures |server.history| >= old(|server.history|) && NeverLost(server.history, from, name, backup, rows)
    ensures outcome == Restored || outcome == Stranded
    ensures Intact(server.collections, name, backup, rows)
    ensures outcome == Restored ==> server.collections == (old(server.collections) - {name, backup})[name := rows]
    ensures outcome == Restored <==> !UndoFails(faults, name in old(server.collections))
    ensures server.collections - {name, backup} == old(server.collections) - {name, backup}
  {
    if faults.inspect {
      return Stranded;
    }
    if name in server.collections {
      var dropped := server.Drop(name, faults.drop);
      if !dropped {
        return Stranded;
      }
    }
    var renamed := server.Rename(backup, name, faults.restore);
    if !renamed {
      return Stranded;
    }
    var reloaded := server.Touch(name, faults.reload);
    outcome := if reloaded then Restored else Stranded;
  }

  /** How the rebuild of `n` rows ends, from the faults alone. */
  function OutcomeOf(faults: Faults, n: nat, backupExists: bool): Outcome {
    if faults.release || backupExists then Unchanged
    else if !faults.rename.NoFault? then if TakesEffect(faults.rename) then Stranded else Unchanged
    else if !CopyFails(faults, n) then Rebuilt
    else if UndoFails(faults, TakesEffect(faults.create)) then Stranded
    else Restored
  }

  /** The rename took effect and raised, or the copy failed and then a call of the undo. */
  predicate Strands(faults: Faults, n: nat, backupExists: bool) {
    && !faults.release && !backupExists && TakesEffect(faults.rename)
    && (faults.rename.NoFault? ==> CopyFails(faults, n) && UndoFails(faults, TakesEffect(faults.create)))
  }

  /** Whatever fails, the original rows are never lost; a normal exit keeps them under the backup name
      beside a copy in which only missing fields were added, and a handled failure restores the name. */
  method RebuildLegacyCollection(server: Server, name: string, stamp: string, generated: Option<string>,
                                 env: Environment, faults: Faults)
    returns (outcome: Outcome, backup: string)
    requires name in server.collections
    modifies server
    ensures backup == name + "_legacy_backup_" + stamp
    ensures |server.history| >= old(|server.history|)
    ensures NeverLost(server.history, old(|server.history|), name, backup, old(server.collections[name]))
    ensures Intact(server.collections, name, backup, old(server.collections[name]))
    ensures outcome == Rebuilt ==>
      && name in server.collections && CopyOf(old(server.collections[name]), server.collections[name], generated, env)
      && server.collections - {name} == (old(server.collections) - {name})[backup := old(server.collections[name])]
      && backup !in old(server.collections)
    ensures outcome == Rebuilt ==>
      forall i | 0 <= i < |old(server.collections[name])| ::
        RebuiltFrom(old(server.collections[name])[i], server.collections[name][i], generated, i, env)
    ensures outcome == Unchanged || outcome == Restored ==> server.collections == old(server.collections)
    ensures outcome == Stranded ==> server.collections - {name, backup} == old(server.collections) - {name, backup}
    ensures outcome == Stranded <==> Strands(faults, |old(server.collections[name])|, backup in old(server.collections))
    ensures outcome == OutcomeOf(faults, |old(server.collections[name])|, backup in old(server.collections))
  {
    backup := name + "_legacy_backup_" + stamp;
    ghost var from := |server.history|;
    ghost var before := server.collections;
    assert |backup| > |name|;
    var rows := ReadAll(server.collections[name]);
    var released := server.Touch(name, faults.release);
    if !released {
      return Unchanged, backup;
    }
    var renamed := server.Rename(name, backup, faults.rename);
    if !renamed {
      assert server.collections - {name, backup} == before - {name, backup};
      return if name in server.collections then Unchanged else Stranded, backup;
    }
    ghost var moved := server.collections;
    var ok := CopyInto(server, name, rows, generated, env, faults, backup, from);
    assert backup in server.collections - {name};
    if ok {
      CopiesAreRebuilt(rows, server.collections[name], generated, env);
      return Rebuilt, backup;
    }
    assert server.collections - {name, backup} == before - {name} by {
      assert server.collections - {name, backup} == (server.collections - {name}) - {backup};
    }
    outcome := Restore(server, name, backup, faults, rows, from);
    assert before - {name} == before - {name, backup};
    if outcome == Restored {
      assert server.collections == (before - {name})[name := rows];
      assert (before - {name})[name := rows] == before;
    }
  }
}
