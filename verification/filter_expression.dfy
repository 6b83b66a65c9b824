/** Scope filters: what the builders print, how the expression language reads it
    back, and which rows the result selects. */
module FilterExpression {
  import opened Basics
  import opened Wrappers
  import opened FilterText

  datatype Conjunct =
    | Equals(field: string, value: string)
    | IsTrue(field: string)
    | OneOf(field: string, values: seq<string>)

  datatype FilterError = MissingTenant | MissingKnowledgeBase | BlankDocument | BlankItem

  /** The characters `str.strip` removes. */
  predicate IsSpace(c: char) {
    var n := c as int;
    9 <= n <= 13 || 28 <= n <= 32 || n == 0x85 || n == 0xA0 || n == 0x1680 || 0x2000 <= n <= 0x200A
    || n == 0x2028 || n == 0x2029 || n == 0x202F || n == 0x205F || n == 0x3000
  }

  predicate Blank(s: string) {
    forall c | c in s :: IsSpace(c)
  }

  function Quoted(value: string): string {
    "\"" + Escape(value) + "\""
  }

  function QuoteAll(values: seq<string>): (texts: seq<string>)
    ensures |texts| == |values|
  {
    if values == [] then [] else [Quoted(values[0])] + QuoteAll(values[1..])
  }

  function PrintConjunct(c: Conjunct): string {
    match c
    case Equals(field, value) => field + " == " + Quoted(value)
    case IsTrue(field) => field + " == true"
    case OneOf(field, values) => field + " in [" + Join(QuoteAll(values), ", ") + "]"
  }

  function PrintAll(cs: seq<Conjunct>): (texts: seq<string>)
    ensures |texts| == |cs|
  {
    if cs == [] then [] else [PrintConjunct(cs[0])] + PrintAll(cs[1..])
  }

  function Print(cs: seq<Conjunct>): string {
    Join(PrintAll(cs), " and ")
  }

  lemma {:induction false} PrintAllSnoc(cs: seq<Conjunct>, c: Conjunct)
    ensures PrintAll(cs + [c]) == PrintAll(cs) + [PrintConjunct(c)]
  {
    if cs != [] {
      PrintAllSnoc(cs[1..], c);
      assert (cs + [c])[1..] == cs[1..] + [c];
    }
  }

  // ---------------------------------------------------------- the builders

  function WithOptional(cs: seq<Conjunct>, field: string, value: Option<string>): seq<Conjunct> {
    if value.Some? then cs + [Equals(field, value.value)] else cs
  }

  function MandatoryConditions(tenant: string, kb: string, activeOnly: bool): seq<Conjunct> {
    [Equals("tenant_id", tenant), Equals("knowledge_base_id", kb)] + (if activeOnly then [IsTrue("is_active")] else [])
  }

  /** The conditions a caller of the scope filter asks for. */
  function ScopeConditions(tenant: string, kb: string, document: Option<string>, item: Option<string>, activeOnly: bool)
    : seq<Conjunct>
  {
    WithOptional(WithOptional(MandatoryConditions(tenant, kb, activeOnly), "document_id", document), "item_name", item)
  }

  /** The first complaint, if any, about the arguments. `None` stands for a null argument. */
  function ScopeError(tenant: Option<string>, kb: Option<string>, document: Option<string>, item: Option<string>)
    : Option<FilterError>
  {
    if tenant.None? || Blank(tenant.value) then Some(MissingTenant)
    else if kb.None? || Blank(kb.value) then Some(MissingKnowledgeBase)
    else if document.Some? && Blank(document.value) then Some(BlankDocument)
    else if item.Some? && Blank(item.value) then Some(BlankItem)
    else None
  }

  predicate Present(argument: Option<string>) {
    argument.Some? && exists c | c in argument.value :: !IsSpace(c)
  }

  /** There is no complaint exactly when tenant and knowledge base are given and nothing given is blank. */
  lemma NoComplaintIff(tenant: Option<string>, kb: Option<string>, document: Option<string>, item: Option<string>)
    ensures ScopeError(tenant, kb, document, item) == None
       <==> Present(tenant) && Present(kb) && (document == None || Present(document)) && (item == None || Present(item))
  {
  }

  /** The text of one equality, as the format strings assemble it. */
  function EqualsClause(field: string, value: string): string {
    field + " == \"" + EscapeChain(value) + "\""
  }

  lemma EqualsClauseText(field: string, value: string)
    ensures EqualsClause(field, value) == PrintConjunct(Equals(field, value))
  {
    ChainIsPerCharacter(value);
    assert " == \"" == " == " + "\"";
  }

  lemma PrintsOneMore(clauses: seq<string>, cs: seq<Conjunct>, field: string, value: string)
    requires clauses == PrintAll(cs)
    ensures clauses + [EqualsClause(field, value)] == PrintAll(cs + [Equals(field, value)])
  {
    EqualsClauseText(field, value);
    PrintAllSnoc(cs, Equals(field, value));
  }

  lemma MandatoryTexts(tenant: string, kb: string, activeOnly: bool)
    ensures PrintAll(MandatoryConditions(tenant, kb, activeOnly))
         == [EqualsClause("tenant_id", tenant), EqualsClause("knowledge_base_id", kb)]
            + (if activeOnly then ["is_active == true"] else [])
  {
    var first, second := Equals("tenant_id", tenant), Equals("knowledge_base_id", kb);
    EqualsClauseText("tenant_id", tenant);
    EqualsClauseText("knowledge_base_id", kb);
    PrintAllSnoc([first], second);
    assert [first] + [second] == [first, second];
    PrintAllSnoc([first, second], IsTrue("is_active"));
    assert "is_active == true" == PrintConjunct(IsTrue("is_active"));
    assert [first, second] + [] == [first, second];
  }

  /** What a quoted value looks like. */
  lemma KnownQuotation()
    ensures Quoted("t") == "\"t\"" && Quoted("k") == "\"k\""
    ensures Quoted("\"") == "\"\\\"\"" && Quoted("\\") == "\"\\\\\"" && Quoted("\n") == "\" \""
  {
    assert Escape("t") == "t" && Escape("k") == "k";
    assert Escape("\"") == "\\\"" && Escape("\\") == "\\\\" && Escape("\n") == " ";
  }

  /** What conditions look like, and how two of them are joined. */
  lemma KnownConditions()
    ensures PrintConjunct(Equals("tenant_id", "t")) == "tenant_id == \"t\""
    ensures PrintConjunct(IsTrue("is_active")) == "is_active == true"
  {
    KnownQuotation();
  }

  lemma JoinOfTwo(first: string, second: string, separator: string)
    ensures Join([first, second], separator) == first + separator + second
  {
    assert [first, second][1..] == [second] && Join([second], separator) == second;
  }

  lemma KnownList(field: string, v: string, w: string)
    ensures PrintConjunct(OneOf(field, [v, w])) == field + " in [" + (Quoted(v) + ", " + Quoted(w)) + "]"
  {
    assert [v, w][1..] == [w] && QuoteAll([v, w]) == [Quoted(v), Quoted(w)];
    JoinOfTwo(Quoted(v), Quoted(w), ", ");
  }

  lemma KnownFilter(c: Conjunct, d: Conjunct)
    ensures Print([c, d]) == PrintConjunct(c) + (" and " + PrintConjunct(d))
  {
    var first, second := PrintConjunct(c), PrintConjunct(d);
    PrintAllSnoc([c], d);
    assert [c] + [d] == [c, d] && [c][1..] == [] && PrintAll([c]) == [first];
    assert [first] + [second] == [first, second] && [first, second][1..] == [second];
    assert Join([second], " and ") == second;
    assert Join([first, second], " and ") == first + " and " + Join([first, second][1..], " and ");
    Associate(first, " and ", second);
  }

  method BuildScopeFilter(tenant: Option<string>, kb: Option<string>, document: Option<string>, item: Option<string>,
                          activeOnly: bool)
    returns (r: Result<string, FilterError>)
    ensures match ScopeError(tenant, kb, document, item)
            case Some(error) => r == Failure(error)
            case None => r == Success(Print(ScopeConditions(tenant.value, kb.value, document, item, activeOnly)))
  {
    if tenant.None? || Blank(tenant.value) {
      return Failure(MissingTenant);
    }
    if kb.None? || Blank(kb.value) {
      return Failure(MissingKnowledgeBase);
    }
    var clauses := [EqualsClause("tenant_id", tenant.value), EqualsClause("knowledge_base_id", kb.value)];
    if activeOnly {
      clauses := clauses + ["is_active == true"];
    }
    MandatoryTexts(tenant.value, kb.value, activeOnly);
    ghost var conditions := MandatoryConditions(tenant.value, kb.value, activeOnly);
    assert clauses == PrintAll(conditions);
    if document.Some? {
      if Blank(document.value) {
        return Failure(BlankDocument);
      }
      PrintsOneMore(clauses, conditions, "document_id", document.value);
      clauses := clauses + [EqualsClause("document_id", document.value)];
    }
    conditions := WithOptional(conditions, "document_id", document);
    if item.Some? {
      if Blank(item.value) {
        return Failure(BlankItem);
      }
      PrintsOneMore(clauses, conditions, "item_name", item.value);
      clauses := clauses + [EqualsClause("item_name", item.value)];
    }
    r := Success(Join(clauses, " and "));
  }

  function NonBlank(values: seq<string>): seq<string> {
    if values == [] then []
    else (if Blank(values[0]) then [] else [values[0]]) + NonBlank(values[1..])
  }

  function ChunkConditions(items: seq<string>, tenant: string, kb: string): seq<Conjunct> {
    ScopeConditions(tenant, kb, None, None, true)
    + (if NonBlank(items) == [] then [] else [OneOf("item_name", NonBlank(items))])
  }

  lemma {:induction false} QuoteAllSnoc(values: seq<string>, v: string)
    ensures QuoteAll(values + [v]) == QuoteAll(values) + [Quoted(v)]
  {
    if values != [] {
      QuoteAllSnoc(values[1..], v);
      assert (values + [v])[1..] == values[1..] + [v];
    }
  }

  lemma {:induction false} NonBlankSnoc(values: seq<string>, v: string)
    ensures NonBlank(values + [v]) == NonBlank(values) + (if Blank(v) then [] else [v])
  {
    if values == [] {
      assert values + [v] == [v];
    } else {
      NonBlankSnoc(values[1..], v);
      assert (values + [v])[1..] == values[1..] + [v];
    }
  }

  /** The comprehension over the item names. */
  method QuoteItems(items: seq<string>) returns (values: seq<string>)
    ensures values == QuoteAll(NonBlank(items))
  {
    values := [];
    for i := 0 to |items|
      invariant values == QuoteAll(NonBlank(items[..i]))
    {
      assert items[..i + 1] == items[..i] + [items[i]];
      NonBlankSnoc(items[..i], items[i]);
      if !Blank(items[i]) {
        QuoteAllSnoc(NonBlank(items[..i]), items[i]);
        ChainIsPerCharacter(items[i]);
        values := values + ["\"" + EscapeChain(items[i]) + "\""];
      } else {
        assert NonBlank(items[..i]) + [] == NonBlank(items[..i]);
      }
    }
    assert items[..|items|] == items;
  }

  /** The item clause, appended to the scope clauses. */
  lemma ItemClause(scope: seq<Conjunct>, names: seq<string>)
    requires scope != [] && names != []
    ensures Join([Print(scope), "item_name in [" + Join(QuoteAll(names), ", ") + "]"], " and ")
         == Print(scope + [OneOf("item_name", names)])
  {
    var clause := "item_name in [" + Join(QuoteAll(names), ", ") + "]";
    assert clause == PrintConjunct(OneOf("item_name", names));
    PrintAllSnoc(scope, OneOf("item_name", names));
    JoinSnoc(PrintAll(scope), clause, " and ");
    assert [Print(scope), clause][1..] == [clause];
  }

  /** `items` is empty when the caller passes null or an empty list. */
  method BuildChunkFilter(items: seq<string>, tenant: Option<string>, kb: Option<string>)
    returns (r: Result<string, FilterError>)
    ensures match ScopeError(tenant, kb, None, None)
            case Some(error) => r == Failure(error)
            case None => r == Success(Print(ChunkConditions(items, tenant.value, kb.value)))
  {
    r := BuildScopeFilter(tenant, kb, None, None, true);
    if r.Failure? {
      return;
    }
    var clauses := [r.value];
    ghost var scope := ScopeConditions(tenant.value, kb.value, None, None, true);
    var values := QuoteItems(items);
    if values != [] {
      clauses := clauses + ["item_name in [" + Join(values, ", ") + "]"];
      ItemClause(scope, NonBlank(items));
    } else {
      assert scope + [] == scope;
    }
    r := Success(Join(clauses, " and "));
  }
}
