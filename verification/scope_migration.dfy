/** Copying a collection into a new target, and the counting check that must pass
    before the alias is switched. */
module ScopeMigration {
  import opened Basics
  import opened Wrappers
  import opened CollectionServer
  import FilterText
  import FilterExpression
  import FilterReader

  type Scope = (string, string)

  // ---------------------------------------------------------- normalisation

  datatype Environment = Environment(
    digest: string -> string, render: Value -> string, toInt: Value -> int, now: string,
    defaultTenant: string, defaultKnowledgeBase: string)

  function NormalizedScope(row: Row, env: Environment): Row {
    map["tenant_id" := Text(TextOr(row, "tenant_id", env.defaultTenant, env.render)),
        "knowledge_base_id" := Text(TextOr(row, "knowledge_base_id", env.defaultKnowledgeBase, env.render))]
  }

  function NormalizedNames(row: Row, env: Environment): Row {
    map["document_id" := Text(TextOr(row, "document_id", "", env.render)),
        "task_id" := Text(TextOr(row, "task_id", "legacy-migration", env.render)),
        "file_title" := Text(TextOr(row, "file_title", TextOr(row, "file_name", "", env.render), env.render)),
        "item_name" := Text(TextOr(row, "item_name", "", env.render))]
  }

  function NormalizedFlags(row: Row, env: Environment): Row {
    map["document_version" := Number(if "document_version" in row && Truthy(row["document_version"])
                                     then env.toInt(row["document_version"]) else 1),
        "is_active" := Flag(if "is_active" in row then Truthy(row["is_active"]) else true)]
  }

  function Fillings(row: Row, index: nat, env: Environment): Row {
    map["part" := Number(0), "content_hash" := Text(env.digest(TextOr(row, "content", "", env.render))),
        "created_at" := Text(env.now), "chunk_index" := Number(index)]
  }

  /** The columns are overwritten; the fillings are `setdefault`s, so that the row's own values win. */
  function NormalizeRow(row: Row, index: nat, primary: string, env: Environment): Row {
    var copied := row - {primary};
    Fillings(copied, index, env)
    + (copied + NormalizedScope(copied, env) + NormalizedNames(copied, env) + NormalizedFlags(copied, env))
  }

  function NormalizeAll(rows: seq<Row>, primary: string, env: Environment): (r: seq<Row>)
    ensures |r| == |rows|
  {
    seq(|rows|, i requires 0 <= i < |rows| => NormalizeRow(rows[i], i, primary, env))
  }

  function TextOf(row: Row, key: string): string {
    if key in row && row[key].Text? then row[key].text else ""
  }

  function ScopeOf(row: Row): Scope {
    (TextOf(row, "tenant_id"), TextOf(row, "knowledge_base_id"))
  }

  function Scopes(rows: seq<Row>): (r: seq<Scope>)
    ensures |r| == |rows|
  {
    if rows == [] then [] else Scopes(rows[..|rows| - 1]) + [ScopeOf(rows[|rows| - 1])]
  }

  // ------------------------------------------- what normalisation has to keep

  const COLUMNS: set<string> :=
    {"tenant_id", "knowledge_base_id", "document_id", "document_version", "task_id", "is_active", "file_title", "item_name"}

  const FILLED: set<string> := {"part", "content_hash", "created_at", "chunk_index"}

  /** The source row names this field itself; the generated key does not count. */
  predicate Own(row: Row, primary: string, key: string) {
    key in row && key != primary
  }

  predicate OwnTruthy(row: Row, primary: string, key: string) {
    Own(row, primary, key) && Truthy(row[key])
  }

  /** The column holds the row's own value as text or, when that is missing or empty, the default. */
  ghost predicate KeptOr(row: Row, copy: Row, primary: string, key: string, default: string, env: Environment) {
    && key in copy
    && (OwnTruthy(row, primary, key) ==> copy[key] == Text(env.render(row[key])))
    && (!OwnTruthy(row, primary, key) ==> copy[key] == Text(default))
  }

  ghost predicate ScopeKept(row: Row, copy: Row, primary: string, env: Environment) {
    && KeptOr(row, copy, primary, "tenant_id", env.defaultTenant, env)
    && KeptOr(row, copy, primary, "knowledge_base_id", env.defaultKnowledgeBase, env)
  }

  ghost predicate NamesKept(row: Row, copy: Row, primary: string, env: Environment) {
    && KeptOr(row, copy, primary, "document_id", "", env)
    && KeptOr(row, copy, primary, "task_id", "legacy-migration", env)
    && KeptOr(row, copy, primary, "item_name", "", env)
    && KeptOr(row, copy, primary, "file_title",
              if OwnTruthy(row, primary, "file_name") then env.render(row["file_name"]) else "", env)
  }

  ghost predicate FlagsKept(row: Row, copy: Row, primary: string, env: Environment) {
    && "document_version" in copy && "is_active" in copy
    && (OwnTruthy(row, primary, "document_version") ==>
          copy["document_version"] == Number(env.toInt(row["document_version"])))
    && (!OwnTruthy(row, primary, "document_version") ==> copy["document_version"] == Number(1))
    && copy["is_active"] == Flag(!Own(row, primary, "is_active") || Truthy(row["is_active"]))
  }

  function ContentText(row: Row, primary: string, env: Environment): string {
    if OwnTruthy(row, primary, "content") then env.render(row["content"]) else ""
  }

  ghost predicate GapsFilled(row: Row, copy: Row, primary: string, index: nat, env: Environment) {
    && (forall key | key in FILLED :: key in copy)
    && (!Own(row, primary, "part") ==> copy["part"] == Number(0))
    && (!Own(row, primary, "chunk_index") ==> copy["chunk_index"] == Number(index))
    && (!Own(row, primary, "created_at") ==> copy["created_at"] == Text(env.now))
    && (!Own(row, primary, "content_hash") ==> copy["content_hash"] == Text(env.digest(ContentText(row, primary, env))))
  }

  /** The row at position `index` of the source and its copy: every own field but the normalised columns is kept
      as it is, and nothing is added but columns and fillings. */
  ghost predicate FieldsKept(row: Row, copy: Row, primary: string) {
    && (forall key | Own(row, primary, key) && key !in COLUMNS :: key in copy && copy[key] == row[key])
    && (forall key | key in copy :: Own(row, primary, key) || key in COLUMNS || key in FILLED)
  }

  ghost predicate MigratedFrom(row: Row, copy: Row, primary: string, index: nat, env: Environment) {
    && FieldsKept(row, copy, primary) && ScopeKept(row, copy, primary, env) && NamesKept(row, copy, primary, env)
    && FlagsKept(row, copy, primary, env) && GapsFilled(row, copy, primary, index, env)
  }

  lemma ColumnNames(row: Row, index: nat, env: Environment)
    ensures NormalizedScope(row, env).Keys == {"tenant_id", "knowledge_base_id"}
    ensures NormalizedNames(row, env).Keys == {"document_id", "task_id", "file_title", "item_name"}
    ensures NormalizedFlags(row, env).Keys == {"document_version", "is_active"}
    ensures Fillings(row, index, env).Keys == FILLED
  {
  }

  /** The columns and the fillings have different names. */
  lemma NamesApart()
    ensures var scope, names := {"tenant_id", "knowledge_base_id"}, {"document_id", "task_id", "file_title", "item_name"};
            var flags := {"document_version", "is_active"};
            scope !! names && scope !! flags && names !! flags && COLUMNS == scope + names + flags && COLUMNS !! FILLED
  {
  }

  lemma SumLookup(base: Row, a: Row, b: Row, c: Row, under: Row, key: string)
    requires a.Keys !! b.Keys && a.Keys !! c.Keys && b.Keys !! c.Keys
    ensures var sum := under + (base + a + b + c);
            && (key in sum <==> key in base || key in a || key in b || key in c || key in under)
            && (key in a ==> sum[key] == a[key]) && (key in b ==> sum[key] == b[key]) && (key in c ==> sum[key] == c[key])
            && (key in base && key !in a && key !in b && key !in c ==> sum[key] == base[key])
            && (key in under && key !in base && key !in a && key !in b && key !in c ==> sum[key] == under[key])
  {
  }

  /** Where the value of a field comes from. */
  lemma NormalizedValue(row: Row, index: nat, primary: string, env: Environment, key: string)
    ensures var copied, copy := row - {primary}, NormalizeRow(row, index, primary, env);
            && (key in copy <==> key in copied || key in COLUMNS || key in FILLED)
            && (key in NormalizedScope(copied, env) ==> copy[key] == NormalizedScope(copied, env)[key])
            && (key in NormalizedNames(copied, env) ==> copy[key] == NormalizedNames(copied, env)[key])
            && (key in NormalizedFlags(copied, env) ==> copy[key] == NormalizedFlags(copied, env)[key])
            && (key in copied && key !in COLUMNS ==> copy[key] == copied[key])
            && (key in Fillings(copied, index, env) && key !in copied ==> copy[key] == Fillings(copied, index, env)[key])
  {
    var copied := row - {primary};
    var scope, names, flags := NormalizedScope(copied, env), NormalizedNames(copied, env), NormalizedFlags(copied, env);
    var fillings := Fillings(copied, index, env);
    ColumnNames(copied, index, env);
    NamesApart();
    assert scope.Keys !! names.Keys && scope.Keys !! flags.Keys && names.Keys !! flags.Keys;
    assert COLUMNS == scope.Keys + names.Keys + flags.Keys && FILLED == fillings.Keys && COLUMNS !! FILLED;
    SumLookup(copied, scope, names, flags, fillings, key);
  }

  lemma NormalizingKeepsFields(row: Row, index: nat, primary: string, env: Environment)
    ensures FieldsKept(row, NormalizeRow(row, index, primary, env), primary)
  {
    forall key
      ensures var copy := NormalizeRow(row, index, primary, env);
              && (Own(row, primary, key) && key !in COLUMNS ==> key in copy && copy[key] == row[key])
              && (key in copy ==> Own(row, primary, key) || key in COLUMNS || key in FILLED)
    {
      NormalizedValue(row, index, primary, env, key);
    }
  }

  lemma NormalizingKeepsScope(row: Row, index: nat, primary: string, env: Environment)
    ensures ScopeKept(row, NormalizeRow(row, index, primary, env), primary, env)
  {
    NormalizedValue(row, index, primary, env, "tenant_id");
    NormalizedValue(row, index, primary, env, "knowledge_base_id");
  }

  lemma NormalizingKeepsNames(row: Row, index: nat, primary: string, env: Environment)
    ensures NamesKept(row, NormalizeRow(row, index, primary, env), primary, env)
  {
    NormalizedValue(row, index, primary, env, "document_id");
    NormalizedValue(row, index, primary, env, "task_id");
    NormalizedValue(row, index, primary, env, "file_title");
    NormalizedValue(row, index, primary, env, "item_name");
  }

  lemma NormalizingKeepsFlags(row: Row, index: nat, primary: string, env: Environment)
    ensures FlagsKept(row, NormalizeRow(row, index, primary, env), primary, env)
  {
    NormalizedValue(row, index, primary, env, "document_version");
    NormalizedValue(row, index, primary, env, "is_active");
  }

  lemma FillingsAreThere(row: Row, index: nat, primary: string, env: Environment)
    ensures forall key | key in FILLED :: key in NormalizeRow(row, index, primary, env)
  {
    forall key | key in FILLED
      ensures key in NormalizeRow(row, index, primary, env)
    {
      NormalizedValue(row, index, primary, env, key);
    }
  }

  lemma FilledValue(row: Row, index: nat, primary: string, env: Environment, key: string)
    requires key in Fillings(row - {primary}, index, env) && !Own(row, primary, key)
    ensures key in NormalizeRow(row, index, primary, env)
    ensures NormalizeRow(row, index, primary, env)[key] == Fillings(row - {primary}, index, env)[key]
  {
    NormalizedValue(row, index, primary, env, key);
    ColumnNames(row - {primary}, index, env);
  }

  lemma NormalizingFillsGaps(row: Row, index: nat, primary: string, env: Environment)
    ensures GapsFilled(row, NormalizeRow(row, index, primary, env), primary, index, env)
  {
    FillingsAreThere(row, index, primary, env);
    if !Own(row, primary, "part") {
      FilledValue(row, index, primary, env, "part");
    }
    if !Own(row, primary, "chunk_index") {
      FilledValue(row, index, primary, env, "chunk_index");
    }
    if !Own(row, primary, "created_at") {
      FilledValue(row, index, primary, env, "created_at");
    }
    if !Own(row, primary, "content_hash") {
      FilledValue(row, index, primary, env, "content_hash");
    }
  }

  lemma NormalizingKeepsRow(row: Row, index: nat, primary: string, env: Environment)
    ensures MigratedFrom(row, NormalizeRow(row, index, primary, env), primary, index, env)
  {
    NormalizingKeepsFields(row, index, primary, env);
    NormalizingKeepsScope(row, index, primary, env);
    NormalizingKeepsNames(row, index, primary, env);
    NormalizingKeepsFlags(row, index, primary, env);
    NormalizingFillsGaps(row, index, primary, env);
  }

  /** Row by row, in order. */
  ghost predicate AllMigrated(rows: seq<Row>, copies: seq<Row>, primary: string, env: Environment) {
    |copies| == |rows| && forall i | 0 <= i < |rows| :: MigratedFrom(rows[i], copies[i], primary, i, env)
  }

  lemma NormalizingKeepsRows(rows: seq<Row>, primary: string, env: Environment)
    ensures AllMigrated(rows, NormalizeAll(rows, primary, env), primary, env)
  {
    forall i | 0 <= i < |rows|
      ensures MigratedFrom(rows[i], NormalizeAll(rows, primary, env)[i], primary, i, env)
    {
      NormalizingKeepsRow(rows[i], i, primary, env);
    }
  }

  /** The row says in text which tenant and knowledge base it belongs to. */
  predicate SaysScope(row: Row, primary: string) {
    && OwnTruthy(row, primary, "tenant_id") && row["tenant_id"].Text?
    && OwnTruthy(row, primary, "knowledge_base_id") && row["knowledge_base_id"].Text?
  }

  /** `str` of a text is that text. */
  ghost predicate RendersText(env: Environment) {
    forall t :: env.render(Text(t)) == t
  }

  /** Rows that say where they belong stay where they are. */
  lemma {:induction false} ScopesArePreserved(rows: seq<Row>, copies: seq<Row>, primary: string, env: Environment)
    requires |copies| == |rows| && forall i | 0 <= i < |rows| :: ScopeKept(rows[i], copies[i], primary, env)
    requires RendersText(env) && forall row | row in rows :: SaysScope(row, primary)
    ensures Scopes(copies) == Scopes(rows)
  {
    if rows != [] {
      var n := |rows| - 1;
      ScopesArePreserved(rows[..n], copies[..n], primary, env);
      assert ScopeKept(rows[n], copies[n], primary, env) && SaysScope(rows[n], primary);
    }
  }

  lemma MigratedKeepScopes(rows: seq<Row>, primary: string, env: Environment)
    ensures AllMigrated(rows, NormalizeAll(rows, primary, env), primary, env)
    ensures RendersText(env) && (forall row | row in rows :: SaysScope(row, primary)) ==>
              Scopes(NormalizeAll(rows, primary, env)) == Scopes(rows)
  {
    NormalizingKeepsRows(rows, primary, env);
    var copies := NormalizeAll(rows, primary, env);
    forall i | 0 <= i < |rows|
      ensures ScopeKept(rows[i], copies[i], primary, env)
    {
      assert MigratedFrom(rows[i], copies[i], primary, i, env);
    }
    if RendersText(env) && forall row | row in rows :: SaysScope(row, primary) {
      ScopesArePreserved(rows, copies, primary, env);
    }
  }

  // ------------------------------------------------------------- the check

  /** What the filter language compares a scope with. */
  function Flat(scope: Scope): Scope {
    (FilterText.Flatten(scope.0), FilterText.Flatten(scope.1))
  }

  predicate Named(scope: Scope) {
    !FilterExpression.Blank(scope.0) && !FilterExpression.Blank(scope.1)
  }

  /** The verification passes: equal totals, and for every scope of the source the filter
      counts as many target rows as the source has. */
  ghost predicate Accepts(source: multiset<Scope>, target: multiset<Scope>) {
    CountsMatch(source, target, Flat) && forall x | x in source :: Named(x)
  }

  /** No scope contains a line break or a tab. */
  ghost predicate AllClean(source: multiset<Scope>) {
    forall x | x in source :: Flat(x) == x
  }

  // The counting argument does not depend on what scopes and their flat forms are.

  ghost predicate CountsMatch<T(!new)>(source: multiset<T>, target: multiset<T>, flat: T -> T) {
    |target| == |source| && forall x | x in source :: target[flat(x)] == source[x]
  }

  lemma SubmultisetOfSameSize<T>(a: multiset<T>, b: multiset<T>)
    requires a <= b && |a| == |b|
    ensures a == b
  {
    assert b == a + (b - a);
    assert |b - a| == 0;
  }

  lemma FixedCountsAreEqual<T(!new)>(source: multiset<T>, target: multiset<T>, flat: T -> T)
    requires forall x | x in source :: flat(x) == x
    ensures CountsMatch(source, target, flat) <==> target == source
  {
    if CountsMatch(source, target, flat) {
      assert forall x :: x in source ==> target[flat(x)] == source[x];
      assert source <= target;
      SubmultisetOfSameSize(source, target);
    }
  }

  /** One row `x` that is not in flat form can be exchanged for another such value unnoticed. */
  lemma ExchangeIsInvisible<T(!new)>(source: multiset<T>, flat: T -> T, x: T, z: T) returns (other: multiset<T>)
    requires x in source && x != z && CountsMatch(source, source, flat)
    requires forall u :: flat(u) != x && flat(u) != z
    ensures CountsMatch(source, other, flat) && other != source
  {
    other := source[x := source[x] - 1][z := source[z] + 1];
    assert other[x] == source[x] - 1;
    assert |source[x := source[x] - 1]| == |source| - 1;
    forall u | u in source
      ensures other[flat(u)] == source[u]
    {
      assert flat(u) != x && flat(u) != z;
      assert source[flat(u)] == source[u];
    }
  }

  /** When no scope contains a line break or a tab, passing the check means that the target holds
      exactly the scopes of the source, so no row has any other scope. */
  lemma CleanCheckIsEquality(source: multiset<Scope>, target: multiset<Scope>)
    requires AllClean(source)
    ensures Accepts(source, target) <==> target == source && forall x | x in source :: Named(x)
  {
    FixedCountsAreEqual(source, target, Flat);
  }

  lemma {:induction false} FlattenTwice(s: string)
    ensures FilterText.Flatten(FilterText.Flatten(s)) == FilterText.Flatten(s)
  {
    if s != "" {
      FlattenTwice(s[1..]);
    }
  }

  lemma {:induction false} FlattenEndsFlat(s: string)
    ensures FilterText.Flatten(s + "\n") != s + "\n"
  {
    if s == "" {
      assert FilterText.Flatten("\n") == " ";
      assert "\n" != " ";
    } else {
      FlattenEndsFlat(s[1..]);
      assert (s + "\n")[1..] == s[1..] + "\n";
      assert FilterText.Flatten(s + "\n")[1..] == FilterText.Flatten(s[1..] + "\n");
    }
  }

  lemma UncleanIsNeverFlat(x: Scope)
    requires Flat(x) != x
    ensures forall u :: Flat(u) != x
  {
    forall u
      ensures Flat(u) != x
    {
      FlattenTwice(u.0);
      FlattenTwice(u.1);
    }
  }

  lemma AddedBreakIsUnclean(x: Scope)
    ensures (x.0 + "\n", x.1) != x && Flat((x.0 + "\n", x.1)) != (x.0 + "\n", x.1)
  {
    FlattenEndsFlat(x.0);
    assert |x.0 + "\n"| == |x.0| + 1;
  }

  /** Whatever target passes the check, it equals the source. */
  ghost predicate CheckDecidesEquality(source: multiset<Scope>) {
    forall target :: Accepts(source, target) ==> target == source
  }

  ghost predicate SomeTargetPasses(source: multiset<Scope>) {
    exists target :: Accepts(source, target)
  }

  lemma UncleanRowIsInvisible(source: multiset<Scope>, x: Scope)
    requires x in source && Flat(x) != x && Accepts(source, source)
    ensures !CheckDecidesEquality(source)
  {
    var z := (x.0 + "\n", x.1);
    AddedBreakIsUnclean(x);
    UncleanIsNeverFlat(x);
    UncleanIsNeverFlat(z);
    var other := ExchangeIsInvisible(source, Flat, x, z);
    assert Accepts(source, other);
  }

  lemma CleanDecides(source: multiset<Scope>)
    requires AllClean(source)
    ensures CheckDecidesEquality(source)
  {
    forall target
      ensures Accepts(source, target) ==> target == source
    {
      CleanCheckIsEquality(source, target);
    }
  }

  /** The source could be migrated at all: every scope has a filter, and scopes that the filter cannot tell
      apart are equally frequent. */
  ghost predicate Countable(source: multiset<Scope>) {
    && (forall x | x in source :: Named(x))
    && forall x, y | x in source && y in source && Flat(x) == Flat(y) :: source[x] == source[y]
  }

  /** The right number of rows for every flattened scope, and no more rows than the source has. */
  lemma {:induction false} FlatTarget(source: multiset<Scope>) returns (target: multiset<Scope>)
    requires Countable(source)
    ensures |target| <= |source| && forall x | x in source :: target[Flat(x)] == source[x]
    decreases |source|
  {
    target := multiset{};
    if source != multiset{} {
      var x :| x in source;
      var rest := source[x := 0];
      assert |rest| == |source| - source[x];
      assert forall y :: y in rest <==> y in source && y != x;
      target := FlatTarget(rest);
      if forall y | y in rest :: Flat(y) != Flat(x) {
        target := target[Flat(x) := source[x]];
      } else {
        var y :| y in rest && Flat(y) == Flat(x);
        assert target[Flat(x)] == rest[y] == source[y] == source[x];
      }
    }
  }

  /** Fill a target up with rows of a scope that no filter asks for. */
  lemma PaddedTarget(source: multiset<Scope>, flat: multiset<Scope>, pad: Scope) returns (target: multiset<Scope>)
    requires |flat| <= |source| && forall u :: Flat(u) != pad
    ensures |target| == |source| && forall u :: target[Flat(u)] == flat[Flat(u)]
    ensures flat <= target
  {
    target := flat[pad := flat[pad] + (|source| - |flat|)];
    forall u
      ensures target[Flat(u)] == flat[Flat(u)]
    {
      assert Flat(u) != pad;
    }
  }

  const FOREIGN: Scope := ("other\n", "other")

  lemma ForeignIsNeverFlat()
    ensures forall u :: Flat(u) != FOREIGN
  {
    FlattenEndsFlat("other");
    UncleanIsNeverFlat(FOREIGN);
  }

  /** Some target passes the check exactly when the source is countable. */
  lemma PassesIffCountable(source: multiset<Scope>)
    ensures SomeTargetPasses(source) <==> Countable(source)
  {
    if SomeTargetPasses(source) {
      var target :| Accepts(source, target);
      forall x, y | x in source && y in source && Flat(x) == Flat(y)
        ensures source[x] == source[y]
      {
        assert target[Flat(x)] == source[x] && target[Flat(y)] == source[y];
      }
    }
    if Countable(source) {
      ForeignIsNeverFlat();
      var flat := FlatTarget(source);
      var target := PaddedTarget(source, flat, FOREIGN);
      assert Accepts(source, target);
    }
  }

  lemma UncleanDoesNotDecide(source: multiset<Scope>)
    requires !AllClean(source) && SomeTargetPasses(source)
    ensures !CheckDecidesEquality(source)
  {
    var target :| Accepts(source, target);
    if target == source {
      var x :| x in source && Flat(x) != x;
      UncleanRowIsInvisible(source, x);
    }
  }

  /** Passing the check forces the target to equal the source, for every target, exactly when no source scope
      contains a line break or a tab, or when the source is one that no target could pass for: a blank scope,
      or two scopes that differ only in such characters and in how often they occur. */
  lemma CheckDecidesEqualityIff(source: multiset<Scope>)
    ensures CheckDecidesEquality(source) <==> AllClean(source) || !Countable(source)
    ensures CheckDecidesEquality(source) && SomeTargetPasses(source)
       <==> AllClean(source) && forall x | x in source :: Named(x)
  {
    PassesIffCountable(source);
    if AllClean(source) {
      CleanDecides(source);
    } else if SomeTargetPasses(source) {
      UncleanDoesNotDecide(source);
    }
  }

  const BROKEN_SOURCE: multiset<Scope> := multiset{("a\n", "k"), ("a ", "k")}
  const WRONG_TARGET: multiset<Scope> := multiset{("a ", "k"), ("b", "k")}

  /** A source of two rows, and a target with a row of another tenant that passes its check. */
  lemma WrongTargetPasses()
    ensures Accepts(BROKEN_SOURCE, WRONG_TARGET) && WRONG_TARGET != BROKEN_SOURCE
    ensures ("b", "k") in WRONG_TARGET && ("b", "k") !in BROKEN_SOURCE
    ensures !CheckDecidesEquality(BROKEN_SOURCE)
  {
    FlattenOfA();
    assert 'a' in "a\n" && 'a' in "a " && 'k' in "k";
    assert ("b", "k") !in BROKEN_SOURCE;
    assert WRONG_TARGET[("a ", "k")] == 1;
    assert BROKEN_SOURCE[("a\n", "k")] == 1 && BROKEN_SOURCE[("a ", "k")] == 1;
    assert forall x | x in BROKEN_SOURCE :: x == ("a\n", "k") || x == ("a ", "k");
    assert Accepts(BROKEN_SOURCE, WRONG_TARGET);
  }

  lemma FlattenOfA()
    ensures FilterText.Flatten("a\n") == "a " && FilterText.Flatten("a ") == "a " && FilterText.Flatten("k") == "k"
  {
  }

  // ------------------------------------------------------- the migration run

  function AsFilterRow(row: Row): FilterReader.Row {
    FilterReader.Row(TextOf(row, "tenant_id"), TextOf(row, "knowledge_base_id"),
                     "is_active" in row && row["is_active"] == Flag(true),
                     TextOf(row, "document_id"), TextOf(row, "item_name"))
  }

  /** The result of a query with this filter. */
  function Query(rows: seq<Row>, filter: string): seq<Row> {
    if rows == [] then []
    else
      var front, last := rows[..|rows| - 1], rows[|rows| - 1];
      Query(front, filter) + (if FilterReader.Selects(filter, AsFilterRow(last)) then [last] else [])
  }

  function ScopeFilter(scope: Scope): string {
    FilterExpression.Print(FilterExpression.ScopeConditions(scope.0, scope.1, None, None, false))
  }

  /** A scope filter counts the target rows whose scope is the flattened one. */
  lemma {:induction false} QueryCountsScope(rows: seq<Row>, scope: Scope)
    ensures |Query(rows, ScopeFilter(scope))| == multiset(Scopes(rows))[Flat(scope)]
  {
    if rows != [] {
      var last := rows[|rows| - 1];
      QueryCountsScope(rows[..|rows| - 1], scope);
      FilterReader.ScopeFilterSelects(scope.0, scope.1, None, None, false, AsFilterRow(last));
      assert Scopes(rows) == Scopes(rows[..|rows| - 1]) + [ScopeOf(last)];
    }
  }

  /** The dictionary counts the scopes. */
  ghost predicate Counts(expected: map<Scope, nat>, scopes: multiset<Scope>) {
    && (forall x :: x in expected <==> x in scopes)
    && forall x | x in expected :: expected[x] == scopes[x]
  }

  lemma CountOne(expected: map<Scope, nat>, scopes: multiset<Scope>, scope: Scope)
    requires Counts(expected, scopes)
    ensures Counts(expected[scope := (if scope in expected then expected[scope] else 0) + 1], scopes + multiset{scope})
  {
  }

  lemma ScopesNext(rows: seq<Row>, i: nat)
    requires i < |rows|
    ensures multiset(Scopes(rows[..i + 1])) == multiset(Scopes(rows[..i])) + multiset{ScopeOf(rows[i])}
  {
    assert rows[..i + 1][..i] == rows[..i];
    assert Scopes(rows[..i + 1]) == Scopes(rows[..i]) + [ScopeOf(rows[i])];
  }

  /** The counting dictionary over the normalised rows. */
  method CountScopes(rows: seq<Row>) returns (expected: map<Scope, nat>)
    ensures Counts(expected, multiset(Scopes(rows)))
  {
    expected := map[];
    for i := 0 to |rows|
      invariant Counts(expected, multiset(Scopes(rows[..i])))
    {
      var scope := ScopeOf(rows[i]);
      ScopesNext(rows, i);
      CountOne(expected, multiset(Scopes(rows[..i])), scope);
      expected := expected[scope := (if scope in expected then expected[scope] else 0) + 1];
    }
    assert rows[..|rows|] == rows;
  }

  datatype MigrationError = SameName | SourceMissing | TargetExists | CountMismatch | ScopeMismatch | BadScope | ServerError

  /** Count the target rows of one scope; a blank scope has no filter. */
  method CountScope(target: seq<Row>, scope: Scope) returns (count: Option<nat>)
    ensures count == if Named(scope) then Some(multiset(Scopes(target))[Flat(scope)]) else None
  {
    var filter := FilterExpression.BuildScopeFilter(Some(scope.0), Some(scope.1), None, None, false);
    if filter.Failure? {
      return None;
    }
    QueryCountsScope(target, scope);
    var actual := CountAll(Query(target, filter.value));
    count := Some(actual);
  }

  /** The comparison of totals and of every expected scope count. */
  method Verify(normalized: seq<Row>, target: seq<Row>) returns (r: Result<(), MigrationError>)
    ensures r.Success? <==> Accepts(multiset(Scopes(normalized)), multiset(Scopes(target)))
  {
    ghost var source, found := multiset(Scopes(normalized)), multiset(Scopes(target));
    if |target| != |normalized| {
      return Failure(CountMismatch);
    }
    var expected := CountScopes(normalized);
    var pending := expected.Keys;
    while pending != {}
      invariant pending <= expected.Keys
      invariant forall x | x in expected && x !in pending :: Named(x) && found[Flat(x)] == expected[x]
      decreases pending
    {
      var scope :| scope in pending;
      assert scope in source;
      var actual := CountScope(target, scope);
      if actual == None {
        return Failure(BadScope);
      }
      if actual.value != expected[scope] {
        return Failure(ScopeMismatch);
      }
      pending := pending - {scope};
    }
    r := Success(());
  }

  /** Insert every row exactly once, in batches. */
  method InsertAll(server: Server, name: string, rows: seq<Row>, fault: nat -> Fault) returns (ok: bool)
    requires name in server.collections && server.collections[name] == []
    modifies server
    ensures ok ==> server.collections == old(server.collections)[name := rows]
    ensures server.collections.Keys == old(server.collections).Keys
    ensures forall c | c in server.collections && c != name :: server.collections[c] == old(server.collections)[c]
  {
    var start := 0;
    while start < |rows|
      invariant start <= |rows|
      invariant server.collections.Keys == old(server.collections).Keys
      invariant forall c | c in server.collections && c != name :: server.collections[c] == old(server.collections)[c]
      invariant server.collections[name] == rows[..start]
    {
      var end := Min(start + BATCH, |rows|);
      assert rows[..start] + rows[start..end] == rows[..end];
      var inserted := server.Insert(name, rows[start..end], fault(start));
      if !inserted {
        return false;
      }
      start := end;
    }
    assert rows[..start] == rows;
    ok := true;
  }

  class Aliases {
    var targets: map<string, string>

    constructor ()
      ensures targets == map[]
    {
      targets := map[];
    }
  }

  /** The arguments of one execution, and which server calls fail during it. */
  datatype Plan = Plan(
    source: string, target: string, alias: string, primary: string,
    verifyExisting: bool, switchAlias: bool, env: Environment,
    create: Fault, insertFault: nat -> Fault, flush: bool, load: bool, aliasFault: Fault)

  /** Create and fill a target that does not exist yet. */
  method FillTarget(server: Server, plan: Plan, normalized: seq<Row>) returns (ok: bool)
    requires plan.target !in server.collections
    modifies server
    ensures server.collections - {plan.target} == old(server.collections)
    ensures ok ==> plan.target in server.collections && server.collections[plan.target] == normalized
  {
    ok := server.Create(plan.target, plan.create);
    if ok {
      ok := InsertAll(server, plan.target, normalized, plan.insertFault);
    }
    if ok {
      ok := server.Touch(plan.target, plan.flush);
    }
  }

  /** Read, normalise, and fill or find the target. */
  method Prepare(server: Server, plan: Plan) returns (r: Result<(seq<Row>, seq<Row>), MigrationError>)
    requires plan.source != plan.target
    modifies server
    ensures server.collections - {plan.target} == old(server.collections) - {plan.target}
    ensures plan.target in old(server.collections) ==> server.collections == old(server.collections)
    ensures r.Success? ==>
      && plan.source in server.collections && plan.target in server.collections
      && plan.source in old(server.collections)
      && server.collections[plan.source] == old(server.collections)[plan.source]
      && r.value.0 == NormalizeAll(server.collections[plan.source], plan.primary, plan.env)
      && r.value.1 == server.collections[plan.target]
      && (plan.target !in old(server.collections) ==> r.value.1 == r.value.0)
  {
    if plan.source !in server.collections {
      return Failure(SourceMissing);
    }
    var rows := ReadAll(server.collections[plan.source]);
    var present := plan.target in server.collections;
    if present && !plan.verifyExisting {
      return Failure(TargetExists);
    }
    var normalized := NormalizeAll(rows, plan.primary, plan.env);
    if !present {
      var filled := FillTarget(server, plan, normalized);
      if !filled {
        return Failure(ServerError);
      }
    }
    var loaded := server.Touch(plan.target, plan.load);
    if !loaded {
      return Failure(ServerError);
    }
    assert plan.source in server.collections - {plan.target};
    assert (server.collections - {plan.target})[plan.source] == rows;
    var targetRows := ReadAll(server.collections[plan.target]);
    r := Success((normalized, targetRows));
  }

  /** Source and target are there, and the check passes for them. */
  ghost predicate Checked(collections: Collections, plan: Plan) {
    && plan.source in collections && plan.target in collections
    && Accepts(multiset(Scopes(NormalizeAll(collections[plan.source], plan.primary, plan.env))),
               multiset(Scopes(collections[plan.target])))
  }

  /** Alter or create the alias; a failing call may have taken effect. */
  method SwitchAlias(aliases: Aliases, plan: Plan) returns (ok: bool)
    modifies aliases
    ensures ok <==> plan.aliasFault.NoFault?
    ensures aliases.targets ==
      if TakesEffect(plan.aliasFault) then old(aliases.targets)[plan.alias := plan.target] else old(aliases.targets)
  {
    if TakesEffect(plan.aliasFault) {
      aliases.targets := aliases.targets[plan.alias := plan.target];
    }
    ok := plan.aliasFault.NoFault?;
  }

  /** The alias moves only after the check has passed, to the target and nowhere else, also when a call fails;
      the source never changes, and a target created by this run holds every normalised row exactly once. */
  method Migrate(server: Server, aliases: Aliases, plan: Plan) returns (r: Result<nat, MigrationError>)
    modifies server, aliases
    ensures server.collections - {plan.target} == old(server.collections) - {plan.target}
    ensures plan.target in old(server.collections) ==> server.collections == old(server.collections)
    ensures r.Success? ==> Checked(server.collections, plan)
    ensures r.Success? && plan.target !in old(server.collections) ==>
      server.collections[plan.target] == NormalizeAll(server.collections[plan.source], plan.primary, plan.env)
    ensures r.Success? && plan.target !in old(server.collections) ==>
      AllMigrated(server.collections[plan.source], server.collections[plan.target], plan.primary, plan.env)
    ensures r.Success? && RendersText(plan.env)
            && (forall row | row in server.collections[plan.source] :: SaysScope(row, plan.primary)) ==>
      Accepts(multiset(Scopes(server.collections[plan.source])), multiset(Scopes(server.collections[plan.target])))
    ensures r.Success? && RendersText(plan.env) && plan.target !in old(server.collections)
            && (forall row | row in server.collections[plan.source] :: SaysScope(row, plan.primary)) ==>
      Scopes(server.collections[plan.target]) == Scopes(server.collections[plan.source])
    ensures aliases.targets != old(aliases.targets) ==>
      && plan.switchAlias && Checked(server.collections, plan)
      && aliases.targets == old(aliases.targets)[plan.alias := plan.target]
    ensures r.Success? && plan.switchAlias ==> aliases.targets == old(aliases.targets)[plan.alias := plan.target]
    ensures plan.source == plan.target ==> r == Failure(SameName)
  {
    if plan.source == plan.target {
      return Failure(SameName);
    }
    var prepared := Prepare(server, plan);
    if prepared.Failure? {
      return Failure(prepared.error);
    }
    var verified := Verify(prepared.value.0, prepared.value.1);
    if verified.Failure? {
      return Failure(verified.error);
    }
    if plan.switchAlias {
      var switched := SwitchAlias(aliases, plan);
      if !switched {
        return Failure(ServerError);
      }
    }
    MigratedKeepScopes(server.collections[plan.source], plan.primary, plan.env);
    r := Success(|prepared.value.1|);
  }
}
