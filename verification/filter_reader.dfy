/** A reader for filter expressions, and the proof that it recovers exactly the
    conditions the builders were asked for. */
module FilterReader {
  import opened Basics
  import opened Wrappers
  import opened FilterText
  import opened FilterExpression

  type Read<T> = Option<(T, string)>

  lemma DiffersAt(s: string, prefix: string, i: nat)
    requires i < |s| && i < |prefix| && s[i] != prefix[i]
    ensures !StartsWith(s, prefix)
  {
    if |prefix| <= |s| {
      assert s[..|prefix|][i] == s[i];
    }
  }

  /** The rest of a string literal whose opening quote has been read. Only the three escapes
      of the quoting rules are legal, and a literal may not contain a line break or a tab. */
  function ReadLiteral(s: string): (r: Read<string>)
    ensures r.Some? ==> |r.value.1| < |s|
  {
    if s == "" then None
    else if s[0] == '\"' then Some(("", s[1..]))
    else if s[0] == '\\' then
      if |s| < 2 || s[1] !in {'\\', '\"', '\''} then None
      else
        match ReadLiteral(s[2..])
        case None => None
        case Some((value, rest)) => Some(([s[1]] + value, rest))
    else if s[0] in {'\r', '\n', '\t'} then None
    else
      match ReadLiteral(s[1..])
      case None => None
      case Some((value, rest)) => Some(([s[0]] + value, rest))
  }

  predicate FieldChar(c: char) {
    'a' <= c <= 'z' || c == '_'
  }

  predicate IsField(field: string) {
    field != "" && forall c | c in field :: FieldChar(c)
  }

  function ReadField(s: string): (r: (string, string))
    ensures |r.1| <= |s|
  {
    if s == "" || !FieldChar(s[0]) then ("", s)
    else
      var r := ReadField(s[1..]);
      ([s[0]] + r.0, r.1)
  }

  /** The literals of a list, up to and including the closing bracket. */
  function ReadValues(s: string): (r: Read<seq<string>>)
    ensures r.Some? ==> |r.value.1| < |s|
    decreases |s|
  {
    if s == "" || s[0] != '\"' then None
    else
      match ReadLiteral(s[1..])
      case None => None
      case Some((value, rest)) =>
        if StartsWith(rest, "]") then Some(([value], rest[1..]))
        else if StartsWith(rest, ", ") then
          match ReadValues(rest[2..])
          case None => None
          case Some((values, rest')) => Some(([value] + values, rest'))
        else None
  }

  function ReadConjunct(s: string): (r: Read<Conjunct>)
    ensures r.Some? ==> |r.value.1| < |s|
  {
    var (field, rest) := ReadField(s);
    if field == "" then None
    else if StartsWith(rest, " == true") then Some((IsTrue(field), rest[8..]))
    else if StartsWith(rest, " == \"") then
      match ReadLiteral(rest[5..])
      case None => None
      case Some((value, rest')) => Some((Equals(field, value), rest'))
    else if StartsWith(rest, " in [") then
      match ReadValues(rest[5..])
      case None => None
      case Some((values, rest')) => Some((OneOf(field, values), rest'))
    else None
  }

  /** A whole expression: conjuncts separated by ` and `. */
  function ReadFilter(s: string): Option<seq<Conjunct>>
    decreases |s|
  {
    match ReadConjunct(s)
    case None => None
    case Some((c, rest)) =>
      if rest == "" then Some([c])
      else if StartsWith(rest, " and ") then
        match ReadFilter(rest[5..])
        case None => None
        case Some(cs) => Some([c] + cs)
      else None
  }

  // ------------------------------------------------------------ round trip

  function FlattenAll(values: seq<string>): (r: seq<string>)
    ensures |r| == |values|
  {
    if values == [] then [] else [Flatten(values[0])] + FlattenAll(values[1..])
  }

  function FlattenConjunct(c: Conjunct): Conjunct {
    match c
    case Equals(field, value) => Equals(field, Flatten(value))
    case IsTrue(field) => c
    case OneOf(field, values) => OneOf(field, FlattenAll(values))
  }

  function FlattenConjuncts(cs: seq<Conjunct>): (r: seq<Conjunct>)
    ensures |r| == |cs|
  {
    if cs == [] then [] else [FlattenConjunct(cs[0])] + FlattenConjuncts(cs[1..])
  }

  lemma {:induction false} LiteralRoundTrip(value: string, rest: string)
    ensures ReadLiteral(Escape(value) + "\"" + rest) == Some((Flatten(value), rest))
  {
    var s := Escape(value) + "\"" + rest;
    if value == "" {
      assert s[1..] == rest;
    } else {
      LiteralRoundTrip(value[1..], rest);
      var head := EscapeChar(value[0]);
      assert s == head + (Escape(value[1..]) + "\"" + rest);
      assert s[|head|..] == Escape(value[1..]) + "\"" + rest;
    }
  }

  lemma {:induction false} FieldRoundTrip(field: string, rest: string)
    requires forall c | c in field :: FieldChar(c)
    requires rest != "" && !FieldChar(rest[0])
    ensures ReadField(field + rest) == (field, rest)
  {
    if field == "" {
      assert field + rest == rest;
    } else {
      FieldRoundTrip(field[1..], rest);
      assert (field + rest)[1..] == field[1..] + rest;
      assert (field + rest)[0] == field[0] && field[0] in field;
      assert [field[0]] + field[1..] == field;
    }
  }

  lemma LastValue(value: string, rest: string)
    ensures ReadValues(Quoted(value) + "]" + rest) == Some(([Flatten(value)], rest))
  {
    var s := Quoted(value) + "]" + rest;
    assert s[1..] == Escape(value) + "\"" + ("]" + rest);
    LiteralRoundTrip(value, "]" + rest);
    assert ("]" + rest)[1..] == rest;
  }

  lemma AnotherValue(value: string, tail: string, values: seq<string>, rest: string)
    requires ReadValues(tail) == Some((values, rest))
    ensures ReadValues(Quoted(value) + ", " + tail) == Some(([Flatten(value)] + values, rest))
  {
    var s := Quoted(value) + ", " + tail;
    assert s[1..] == Escape(value) + "\"" + (", " + tail);
    LiteralRoundTrip(value, ", " + tail);
    assert (", " + tail)[2..] == tail;
    DiffersAt(", " + tail, "]", 0);
  }

  lemma {:induction false} ValuesRoundTrip(values: seq<string>, rest: string)
    requires values != []
    ensures ReadValues(Join(QuoteAll(values), ", ") + "]" + rest) == Some((FlattenAll(values), rest))
  {
    if |values| == 1 {
      assert values[1..] == [];
      assert QuoteAll(values) == [Quoted(values[0])] && FlattenAll(values) == [Flatten(values[0])];
      LastValue(values[0], rest);
    } else {
      var tail := Join(QuoteAll(values[1..]), ", ") + "]" + rest;
      ValuesRoundTrip(values[1..], rest);
      AnotherValue(values[0], tail, FlattenAll(values[1..]), rest);
      assert Join(QuoteAll(values), ", ") + "]" + rest == Quoted(values[0]) + ", " + tail;
    }
  }

  predicate Printable(c: Conjunct) {
    IsField(c.field) && (c.OneOf? ==> c.values != [])
  }

  lemma EqualsText(field: string, value: string, rest: string)
    ensures PrintConjunct(Equals(field, value)) + rest == field + (" == \"" + (Escape(value) + "\"" + rest))
  {
  }

  lemma AfterPrefix(prefix: string, after: string)
    ensures (prefix + after)[|prefix|..] == after && (prefix + after)[..|prefix|] == prefix
  {
  }

  lemma EqualsRoundTrip(field: string, value: string, rest: string)
    requires IsField(field)
    ensures ReadConjunct(PrintConjunct(Equals(field, value)) + rest) == Some((Equals(field, Flatten(value)), rest))
  {
    var after := Escape(value) + "\"" + rest;
    var tail := " == \"" + after;
    EqualsText(field, value, rest);
    FieldRoundTrip(field, tail);
    LiteralRoundTrip(value, rest);
    DiffersAt(tail, " == true", 4);
    AfterPrefix(" == \"", after);
  }

  lemma IsTrueRoundTrip(field: string, rest: string)
    requires IsField(field)
    ensures ReadConjunct(PrintConjunct(IsTrue(field)) + rest) == Some((IsTrue(field), rest))
  {
    var tail := " == true" + rest;
    assert PrintConjunct(IsTrue(field)) + rest == field + tail;
    FieldRoundTrip(field, tail);
    assert tail[8..] == rest;
  }

  lemma OneOfRoundTrip(field: string, values: seq<string>, rest: string)
    requires IsField(field) && values != []
    ensures ReadConjunct(PrintConjunct(OneOf(field, values)) + rest) == Some((OneOf(field, FlattenAll(values)), rest))
  {
    var after := Join(QuoteAll(values), ", ") + "]" + rest;
    var tail := " in [" + after;
    assert PrintConjunct(OneOf(field, values)) + rest == field + tail;
    FieldRoundTrip(field, tail);
    ValuesRoundTrip(values, rest);
    DiffersAt(tail, " == true", 1);
    DiffersAt(tail, " == \"", 1);
    assert tail[5..] == after;
  }

  lemma ConjunctRoundTrip(c: Conjunct, rest: string)
    requires Printable(c)
    ensures ReadConjunct(PrintConjunct(c) + rest) == Some((FlattenConjunct(c), rest))
  {
    match c
    case Equals(field, value) => EqualsRoundTrip(field, value, rest);
    case IsTrue(field) => IsTrueRoundTrip(field, rest);
    case OneOf(field, values) => OneOfRoundTrip(field, values, rest);
  }

  /** Reading a printed list of conditions gives back that list, with line breaks and tabs
      inside values turned into spaces and nothing else changed. */
  lemma {:induction false} FilterRoundTrip(cs: seq<Conjunct>)
    requires cs != [] && forall c | c in cs :: Printable(c)
    ensures ReadFilter(Print(cs)) == Some(FlattenConjuncts(cs))
  {
    if |cs| == 1 {
      ConjunctRoundTrip(cs[0], "");
      assert PrintConjunct(cs[0]) + "" == PrintConjunct(cs[0]);
      assert cs[1..] == [];
      assert Print(cs) == PrintConjunct(cs[0]);
      assert FlattenConjuncts(cs) == [FlattenConjunct(cs[0])];
    } else {
      var rest := " and " + Print(cs[1..]);
      ConjunctRoundTrip(cs[0], rest);
      assert Print(cs) == PrintConjunct(cs[0]) + rest;
      assert rest[5..] == Print(cs[1..]);
      FilterRoundTrip(cs[1..]);
    }
  }

  // ------------------------------------------------- what a filter selects

  datatype Row = Row(tenant: string, knowledgeBase: string, active: bool, document: string, item: string)

  function TextField(row: Row, field: string): Option<string> {
    if field == "tenant_id" then Some(row.tenant)
    else if field == "knowledge_base_id" then Some(row.knowledgeBase)
    else if field == "document_id" then Some(row.document)
    else if field == "item_name" then Some(row.item)
    else None
  }

  predicate Holds(c: Conjunct, row: Row) {
    match c
    case Equals(field, value) => TextField(row, field) == Some(value)
    case IsTrue(field) => field == "is_active" && row.active
    case OneOf(field, values) => TextField(row, field).Some? && TextField(row, field).value in values
  }

  /** The rows a filter expression selects; a malformed one selects none. */
  predicate Selects(filter: string, row: Row) {
    var read := ReadFilter(filter);
    read.Some? && forall c | c in read.value :: Holds(c, row)
  }

  lemma {:induction false} FlattenConjunctsMembers(cs: seq<Conjunct>, row: Row)
    ensures (forall c | c in FlattenConjuncts(cs) :: Holds(c, row)) <==> (forall c | c in cs :: Holds(FlattenConjunct(c), row))
  {
    if cs != [] {
      FlattenConjunctsMembers(cs[1..], row);
      assert forall c :: c in cs <==> c == cs[0] || c in cs[1..];
      assert forall c :: c in FlattenConjuncts(cs) <==> c == FlattenConjunct(cs[0]) || c in FlattenConjuncts(cs[1..]);
    }
  }

  predicate AllHold(cs: seq<Conjunct>, row: Row) {
    forall c | c in cs :: Holds(FlattenConjunct(c), row)
  }

  lemma AllHoldConcat(a: seq<Conjunct>, b: seq<Conjunct>, row: Row)
    ensures AllHold(a + b, row) <==> AllHold(a, row) && AllHold(b, row)
  {
    assert forall c :: c in a + b <==> c in a || c in b;
  }

  lemma AllHoldOne(c: Conjunct, row: Row)
    ensures AllHold([c], row) <==> Holds(FlattenConjunct(c), row)
  {
    assert c in [c];
  }

  lemma PrintedFilterSelects(cs: seq<Conjunct>, row: Row)
    requires cs != [] && forall c | c in cs :: Printable(c)
    ensures Selects(Print(cs), row) <==> AllHold(cs, row)
  {
    FilterRoundTrip(cs);
    FlattenConjunctsMembers(cs, row);
  }

  lemma MandatoryHold(tenant: string, kb: string, activeOnly: bool, row: Row)
    ensures AllHold(MandatoryConditions(tenant, kb, activeOnly), row)
       <==> row.tenant == Flatten(tenant) && row.knowledgeBase == Flatten(kb) && (activeOnly ==> row.active)
  {
    var first, second := Equals("tenant_id", tenant), Equals("knowledge_base_id", kb);
    AllHoldOne(first, row);
    AllHoldOne(second, row);
    AllHoldConcat([first], [second], row);
    assert [first] + [second] == [first, second];
    AllHoldOne(IsTrue("is_active"), row);
    AllHoldConcat([first, second], if activeOnly then [IsTrue("is_active")] else [], row);
  }

  lemma OptionalHolds(cs: seq<Conjunct>, field: string, value: Option<string>, row: Row)
    ensures AllHold(WithOptional(cs, field, value), row)
       <==> AllHold(cs, row) && (value.Some? ==> TextField(row, field) == Some(Flatten(value.value)))
  {
    if value.Some? {
      AllHoldOne(Equals(field, value.value), row);
      AllHoldConcat(cs, [Equals(field, value.value)], row);
    }
  }

  /** A scope filter selects exactly the rows of the tenant, knowledge base, document and item
      it was asked for, compared with line breaks and tabs read as spaces. */
  lemma ScopeFilterSelects(tenant: string, kb: string, document: Option<string>, item: Option<string>, activeOnly: bool, row: Row)
    ensures Selects(Print(ScopeConditions(tenant, kb, document, item, activeOnly)), row)
       <==> && row.tenant == Flatten(tenant) && row.knowledgeBase == Flatten(kb)
            && (activeOnly ==> row.active)
            && (document.Some? ==> row.document == Flatten(document.value))
            && (item.Some? ==> row.item == Flatten(item.value))
  {
    var mandatory := MandatoryConditions(tenant, kb, activeOnly);
    MandatoryHold(tenant, kb, activeOnly, row);
    OptionalHolds(mandatory, "document_id", document, row);
    OptionalHolds(WithOptional(mandatory, "document_id", document), "item_name", item, row);
    ScopePrintable(tenant, kb, document, item, activeOnly);
    PrintedFilterSelects(ScopeConditions(tenant, kb, document, item, activeOnly), row);
  }

  lemma ScopePrintable(tenant: string, kb: string, document: Option<string>, item: Option<string>, activeOnly: bool)
    ensures forall c | c in ScopeConditions(tenant, kb, document, item, activeOnly) :: Printable(c)
  {
    FieldNames();
  }

  lemma FieldNames()
    ensures IsField("tenant_id") && IsField("knowledge_base_id") && IsField("is_active")
    ensures IsField("document_id") && IsField("item_name")
  {
  }

  lemma {:induction false} FlattenAllMembers(values: seq<string>, s: string)
    ensures s in FlattenAll(values) <==> exists v | v in values :: s == Flatten(v)
  {
    if values != [] {
      FlattenAllMembers(values[1..], s);
      assert values == [values[0]] + values[1..];
      if s == Flatten(values[0]) {
        assert values[0] in values;
      }
    }
  }

  lemma {:induction false} NonBlankMembers(values: seq<string>, s: string)
    ensures s in NonBlank(values) <==> s in values && !Blank(s)
  {
    if values != [] {
      NonBlankMembers(values[1..], s);
    }
  }

  /** Some name of the list is not blank. */
  predicate Names(items: seq<string>) {
    exists v | v in items :: !Blank(v)
  }

  predicate Named(items: seq<string>, item: string) {
    exists v | v in items :: !Blank(v) && item == Flatten(v)
  }

  lemma NamesAreMembers(items: seq<string>, item: string)
    ensures Names(items) <==> NonBlank(items) != []
    ensures Named(items, item) <==> item in FlattenAll(NonBlank(items))
  {
    forall v
      ensures v in NonBlank(items) <==> v in items && !Blank(v)
    {
      NonBlankMembers(items, v);
    }
    FlattenAllMembers(NonBlank(items), item);
    if NonBlank(items) != [] {
      assert NonBlank(items)[0] in NonBlank(items);
    }
  }

  /** A chunk filter selects the active rows of the scope whose item is one of the non-blank
      names, or all of them when there is no such name. */
  lemma ChunkFilterSelects(items: seq<string>, tenant: string, kb: string, row: Row)
    ensures Selects(Print(ChunkConditions(items, tenant, kb)), row)
       <==> && row.tenant == Flatten(tenant) && row.knowledgeBase == Flatten(kb) && row.active
            && (Names(items) ==> Named(items, row.item))
  {
    var scope := ScopeConditions(tenant, kb, None, None, true);
    var names := NonBlank(items);
    NamesAreMembers(items, row.item);
    MandatoryHold(tenant, kb, true, row);
    AllHoldOne(OneOf("item_name", names), row);
    AllHoldConcat(scope, if names == [] then [] else [OneOf("item_name", names)], row);
    ScopePrintable(tenant, kb, None, None, true);
    FieldNames();
    PrintedFilterSelects(ChunkConditions(items, tenant, kb), row);
  }
}
