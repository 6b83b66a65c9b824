/** What goes into the answer prompt: documents and history within a character budget, and the
    labels that tie the prompt to the citations. `strip`, the library's, is a parameter. */
module AnswerContext {
  import opened Basics
  import opened Decimals
  import opened Wrappers

  /** `fields` holds the fields that are present, in the order they are printed; `score` its printed form. */
  datatype Document = Document(source: string, fields: seq<(string, string)>, score: Option<string>, content: string)

  datatype Message = Message(role: string, text: string)

  // ------------------------------------------------------------------- pieces

  /** The loops' count: every part with a separator after it. */
  function Used(parts: seq<string>, separator: string): nat {
    if parts == [] then 0 else Used(parts[..|parts| - 1], separator) + |parts[|parts| - 1]| + |separator|
  }

  lemma {:induction false} JoinLength(parts: seq<string>, separator: string)
    ensures |Join(parts, separator)| == if parts == [] then 0 else Used(parts, separator) - |separator|
  {
    if |parts| > 1 {
      var front, last := parts[..|parts| - 1], parts[|parts| - 1];
      JoinLength(front, separator);
      JoinSnoc(front, last, separator);
      assert front + [last] == parts;
    } else if |parts| == 1 {
      assert parts[..0] == [];
    }
  }

  function Label(index: nat): string {
    "[" + Decimal(index) + "]"
  }

  function Tags(fields: seq<(string, string)>): seq<string> {
    seq(|fields|, i requires 0 <= i < |fields| => "[" + fields[i].0 + "=" + fields[i].1 + "]")
  }

  function Entry(doc: Document, index: nat, strip: string -> string): string {
    Join(Metadata(doc, index), " ") + ("\n" + strip(doc.content))
  }

  lemma JoinStartsWithFirst(parts: seq<string>, separator: string)
    requires |parts| >= 2
    ensures StartsWith(Join(parts, separator), parts[0] + separator)
  {
    StartsWithLonger(parts[0] + separator, parts[0] + separator, Join(parts[1..], separator));
  }

  lemma StartsWithLonger(s: string, prefix: string, more: string)
    requires StartsWith(s, prefix)
    ensures StartsWith(s + more, prefix)
  {
    assert (s + more)[..|prefix|] == s[..|prefix|];
  }

  /** No two labels are the same. */
  lemma LabelsDiffer(i: nat, j: nat)
    ensures Label(i) == Label(j) <==> i == j
  {
    DecimalRoundTrip(i);
    DecimalRoundTrip(j);
    assert Label(i)[1..|Label(i)| - 1] == Decimal(i);
    assert Label(j)[1..|Label(j)| - 1] == Decimal(j);
  }

  function Metadata(doc: Document, index: nat): seq<string> {
    [Label(index), "[source=" + doc.source + "]"] + Tags(doc.fields)
    + if doc.score.Some? then ["[score=" + doc.score.value + "]"] else []
  }

  /** An entry opens with its label. */
  lemma EntryCarriesLabel(doc: Document, index: nat, strip: string -> string)
    ensures StartsWith(Entry(doc, index, strip), Label(index) + " ")
  {
    var metadata := Metadata(doc, index);
    assert metadata[0] == Label(index);
    JoinStartsWithFirst(metadata, " ");
    StartsWithLonger(Join(metadata, " "), Label(index) + " ", "\n" + strip(doc.content));
  }

  /** The part stands somewhere in the whole. */
  ghost predicate Holds(whole: string, part: string) {
    exists pre: string, post: string :: whole == pre + part + post
  }

  lemma HoldsAt(whole: string, pre: string, part: string, post: string)
    requires whole == pre + part + post
    ensures Holds(whole, part)
  {
  }

  lemma HoldsFurther(whole: string, before: string, middle: string, after: string, part: string)
    requires whole == before + middle + after && Holds(middle, part)
    ensures Holds(whole, part)
  {
    var pre: string, post: string :| middle == pre + part + post;
    assert whole == (before + pre) + part + (post + after);
  }

  lemma {:induction false} JoinHolds(parts: seq<string>, separator: string, i: nat)
    requires i < |parts|
    ensures Holds(Join(parts, separator), parts[i])
  {
    var rest := Join(parts[1..], separator);
    if |parts| == 1 {
      HoldsAt(parts[0], "", parts[0], "");
    } else if i == 0 {
      HoldsAt(Join(parts, separator), "", parts[0], separator + rest);
    } else {
      JoinHolds(parts[1..], separator, i - 1);
      HoldsFurther(Join(parts, separator), parts[0] + separator, rest, "", parts[i]);
    }
  }

  /** An entry shows the source, every field with its name, and the score, and ends with the document's text. */
  lemma EntryShowsDocument(doc: Document, index: nat, strip: string -> string)
    ensures var entry := Entry(doc, index, strip);
            && Holds(entry, "[source=" + doc.source + "]")
            && (forall i | 0 <= i < |doc.fields| :: Holds(entry, "[" + doc.fields[i].0 + "=" + doc.fields[i].1 + "]"))
            && (doc.score.Some? ==> Holds(entry, "[score=" + doc.score.value + "]"))
            && exists head: string :: entry == head + "\n" + strip(doc.content)
  {
    var entry, metadata := Entry(doc, index, strip), Metadata(doc, index);
    var head, tail := Join(metadata, " "), "\n" + strip(doc.content);
    forall i | 0 <= i < |metadata|
      ensures Holds(entry, metadata[i])
    {
      JoinHolds(metadata, " ", i);
      HoldsFurther(entry, "", head, tail, metadata[i]);
    }
    assert metadata[1] == "[source=" + doc.source + "]";
    forall i | 0 <= i < |doc.fields|
      ensures Holds(entry, "[" + doc.fields[i].0 + "=" + doc.fields[i].1 + "]")
    {
      assert metadata[2 + i] == "[" + doc.fields[i].0 + "=" + doc.fields[i].1 + "]";
    }
    if doc.score.Some? {
      assert metadata[|metadata| - 1] == "[score=" + doc.score.value + "]";
    }
    assert entry == head + "\n" + strip(doc.content);
  }

  predicate Blank(doc: Document, strip: string -> string) {
    strip(doc.content) == ""
  }

  // ------------------------------------------------------ filling up a budget

  /** Candidates in order; `None` marks one that is skipped. */
  type Candidates = seq<Option<string>>

  function Present(candidates: Candidates, n: nat): seq<string>
    requires n <= |candidates|
  {
    if n == 0 then []
    else Present(candidates, n - 1) + if candidates[n - 1].Some? then [candidates[n - 1].value] else []
  }

  /** `parts` are all the candidates before the first one that would break the budget. */
  ghost predicate Fills(candidates: Candidates, separator: string, budget: int, parts: seq<string>) {
    exists n | 0 <= n <= |candidates| ::
      && parts == Present(candidates, n)
      && (parts == [] || |Join(parts, separator)| <= budget)
      && (n < |candidates| ==> candidates[n].Some?
                               && Used(parts, separator) + |candidates[n].value| > budget)
  }

  /** What the loops take: every candidate until one does not fit. */
  function Fill(candidates: Candidates, i: nat, separator: string, budget: int, taken: seq<string>): seq<string>
    requires i <= |candidates|
    decreases |candidates| - i
  {
    if i == |candidates| then taken
    else
      match candidates[i]
      case None => Fill(candidates, i + 1, separator, budget, taken)
      case Some(part) =>
        if Used(taken, separator) + |part| > budget then taken
        else Fill(candidates, i + 1, separator, budget, taken + [part])
  }

  function Filled(candidates: Candidates, separator: string, budget: int): seq<string> {
    Fill(candidates, 0, separator, budget, [])
  }

  function Rest(budget: int, used: nat): nat {
    if budget > used then budget - used else 0
  }

  lemma OneMorePart(parts: seq<string>, part: string, separator: string)
    ensures Used(parts + [part], separator) == Used(parts, separator) + |part| + |separator|
    ensures |Join(parts + [part], separator)| == Used(parts, separator) + |part|
  {
    assert (parts + [part])[..|parts|] == parts;
    JoinLength(parts + [part], separator);
  }

  lemma StopsAt(candidates: Candidates, i: nat, separator: string, budget: int, taken: seq<string>)
    requires i <= |candidates| && taken == Present(candidates, i)
    requires taken == [] || |Join(taken, separator)| <= budget
    requires i < |candidates| ==> candidates[i].Some? && Used(taken, separator) + |candidates[i].value| > budget
    ensures Fills(candidates, separator, budget, taken)
  {
  }

  lemma {:induction false} FillFills(candidates: Candidates, i: nat, separator: string, budget: int, taken: seq<string>)
    requires i <= |candidates| && taken == Present(candidates, i)
    requires taken == [] || |Join(taken, separator)| <= budget
    ensures Fills(candidates, separator, budget, Fill(candidates, i, separator, budget, taken))
    decreases |candidates| - i
  {
    if i < |candidates| {
      match candidates[i] {
        case None =>
          assert taken + [] == taken;
          FillFills(candidates, i + 1, separator, budget, taken);
        case Some(part) =>
          if Used(taken, separator) + |part| <= budget {
            OneMorePart(taken, part, separator);
            FillFills(candidates, i + 1, separator, budget, taken + [part]);
          } else {
            StopsAt(candidates, i, separator, budget, taken);
          }
      }
    } else {
      StopsAt(candidates, i, separator, budget, taken);
    }
  }

  /** The text holds all candidates before the first one that would break the budget, and fits it. */
  lemma FilledFits(candidates: Candidates, separator: string, budget: int)
    ensures Fills(candidates, separator, budget, Filled(candidates, separator, budget))
    ensures |Join(Filled(candidates, separator, budget), separator)| <= if budget > 0 then budget else 0
  {
    FillFills(candidates, 0, separator, budget, []);
  }

  /** The loop of `_format_docs` and of `_format_history`: candidates are taken until one does not fit. */
  method FillBudget(candidates: Candidates, separator: string, budget: int) returns (text: string, remaining: nat)
    ensures text == Join(Filled(candidates, separator, budget), separator)
    ensures remaining == Rest(budget, Used(Filled(candidates, separator, budget), separator))
  {
    var taken, used: nat, i: nat := [], 0, 0;
    while i < |candidates|
      invariant i <= |candidates| && used == Used(taken, separator)
      invariant Fill(candidates, i, separator, budget, taken) == Filled(candidates, separator, budget)
    {
      match candidates[i] {
        case None =>
        case Some(part) =>
          if used + |part| > budget {
            break;
          }
          OneMorePart(taken, part, separator);
          taken, used := taken + [part], used + |part| + |separator|;
      }
      i := i + 1;
    }
    text, remaining := Join(taken, separator), Rest(budget, used);
  }

  /** A blank document is skipped, but keeps its number. */
  function DocCandidates(docs: seq<Document>, strip: string -> string): Candidates {
    seq(|docs|, i requires 0 <= i < |docs| => if Blank(docs[i], strip) then None else Some(Entry(docs[i], i + 1, strip)))
  }

  function RoleLabel(role: string): Option<string> {
    if role == "user" then Some("用户") else if role == "assistant" then Some("助手") else None
  }

  function Line(message: Message, strip: string -> string): Option<string> {
    var content := strip(message.text);
    if RoleLabel(message.role).None? || content == "" then None
    else Some(RoleLabel(message.role).value + ": " + content)
  }

  function LineCandidates(history: seq<Message>, strip: string -> string): Candidates {
    seq(|history|, i requires 0 <= i < |history| => Line(history[i], strip))
  }

  /** The prompt's two parts together never exceed the budget, whatever the documents and messages. */
  method ConstructContext(docs: seq<Document>, history: seq<Message>, citationMax: nat, budget: int, strip: string -> string)
    returns (context: string, past: string)
    ensures |context| + |past| <= if budget > 0 then budget else 0
    ensures var entries := Filled(DocCandidates(FirstDocs(docs, citationMax), strip), "\n\n", budget);
            && context == Join(entries, "\n\n")
            && past == Join(Filled(LineCandidates(history, strip), "\n", Rest(budget, Used(entries, "\n\n"))), "\n")
  {
    var remaining, left: nat;
    var candidates := DocCandidates(FirstDocs(docs, citationMax), strip);
    var lines := LineCandidates(history, strip);
    context, remaining := FillBudget(candidates, "\n\n", budget);
    past, left := FillBudget(lines, "\n", remaining);
    FilledFits(candidates, "\n\n", budget);
    FilledFits(lines, "\n", remaining);
    JoinLength(Filled(candidates, "\n\n", budget), "\n\n");
  }

  /** A line of the history names its speaker and ends with the text; blank messages and other roles have none. */
  lemma LineShowsMessage(message: Message, strip: string -> string)
    ensures Line(message, strip).Some? <==> message.role in {"user", "assistant"} && strip(message.text) != ""
    ensures Line(message, strip).Some? ==>
              Line(message, strip).value == (if message.role == "user" then "用户" else "助手") + ": " + strip(message.text)
  {
  }

  lemma {:induction false} PresentHolds(candidates: Candidates, n: nat, p: nat) returns (i: nat)
    requires p < n <= |candidates| && candidates[p].Some?
    ensures i < |Present(candidates, n)| && Present(candidates, n)[i] == candidates[p].value
  {
    if p == n - 1 {
      i := |Present(candidates, n)| - 1;
    } else {
      i := PresentHolds(candidates, n - 1, p);
    }
  }

  /** The filled text holds every candidate before the one at which the budget ends. */
  lemma FilledHolds(candidates: Candidates, separator: string, budget: int) returns (n: nat)
    ensures n <= |candidates|
    ensures var parts := Filled(candidates, separator, budget);
            && (n < |candidates| ==> candidates[n].Some? && Used(parts, separator) + |candidates[n].value| > budget)
            && forall p | 0 <= p < n && candidates[p].Some? :: Holds(Join(parts, separator), candidates[p].value)
  {
    FilledFits(candidates, separator, budget);
    var parts := Filled(candidates, separator, budget);
    n :| 0 <= n <= |candidates| && parts == Present(candidates, n)
      && (n < |candidates| ==> candidates[n].Some? && Used(parts, separator) + |candidates[n].value| > budget);
    forall p | 0 <= p < n && candidates[p].Some?
      ensures Holds(Join(parts, separator), candidates[p].value)
    {
      var i := PresentHolds(candidates, n, p);
      JoinHolds(parts, separator, i);
    }
  }

  function FirstDocs(docs: seq<Document>, n: nat): (r: seq<Document>)
    ensures r <= docs && |r| == if n < |docs| then n else |docs|
  {
    if n < |docs| then docs[..n] else docs
  }

  // ----------------------------------------------------- labels and citations

  function Blanks(docs: seq<Document>, strip: string -> string): (r: seq<bool>)
    ensures |r| == |docs|
  {
    seq(|docs|, i requires 0 <= i < |docs| => Blank(docs[i], strip))
  }

  /** The positions of the non-blank documents among the first `n`: what the citations are built from. */
  function Positions(blanks: seq<bool>, n: nat): (r: seq<nat>)
    requires n <= |blanks|
    ensures |r| <= n && forall i | 0 <= i < |r| :: r[i] < n
  {
    if n == 0 then [] else Positions(blanks, n - 1) + if blanks[n - 1] then [] else [n - 1]
  }

  /** `text` is the label; `position` is the place of the cited document in the ranked list. */
  datatype Citation = Citation(id: nat, text: string, position: nat, doc: Document)

  function FirstPositions(positions: seq<nat>, citationMax: nat): seq<nat> {
    if citationMax < |positions| then positions[..citationMax] else positions
  }

  function CitedPositions(blanks: seq<bool>, citationMax: nat): (r: seq<nat>)
    ensures |r| <= citationMax && forall i | 0 <= i < |r| :: r[i] < |blanks|
  {
    FirstPositions(Positions(blanks, |blanks|), citationMax)
  }

  /** The documents at these positions, numbered from 1. */
  function CitationsAt(docs: seq<Document>, cited: seq<nat>): (r: seq<Citation>)
    requires forall i | 0 <= i < |cited| :: cited[i] < |docs|
    ensures |r| == |cited|
  {
    seq(|cited|, i requires 0 <= i < |cited| => Citation(i + 1, Label(i + 1), cited[i], docs[cited[i]]))
  }

  /** The citations of an answer: the first non-blank documents. */
  function Citations(docs: seq<Document>, citationMax: nat, strip: string -> string): seq<Citation> {
    CitationsAt(docs, CitedPositions(Blanks(docs, strip), citationMax))
  }

  lemma KeptPosition(blanks: seq<bool>, i: nat)
    requires i < |blanks|
    ensures Positions(blanks, i + 1) == Positions(blanks, i) + if blanks[i] then [] else [i]
  {
  }

  /** The filter and the cut of `_prepare_evidence`. */
  method PrepareEvidence(docs: seq<Document>, citationMax: nat, strip: string -> string) returns (kept: seq<nat>)
    ensures kept == CitedPositions(Blanks(docs, strip), citationMax)
  {
    kept := [];
    ghost var blanks := Blanks(docs, strip);
    for i := 0 to |docs|
      invariant kept == Positions(blanks, i)
    {
      KeptPosition(blanks, i);
      var blank := Blank(docs[i], strip);
      if !blank {
        kept := kept + [i];
      }
    }
    if citationMax < |kept| {
      kept := kept[..citationMax];
    }
  }

  /** The loop of `_build_citations`, over the documents at the positions `kept`. */
  method BuildCitations(docs: seq<Document>, kept: seq<nat>) returns (citations: seq<Citation>)
    requires forall i | 0 <= i < |kept| :: kept[i] < |docs|
    ensures citations == CitationsAt(docs, kept)
  {
    citations := [];
    for i := 0 to |kept|
      invariant citations == CitationsAt(docs, kept)[..i]
    {
      citations := citations + [Citation(i + 1, Label(i + 1), kept[i], docs[kept[i]])];
    }
  }

  lemma {:induction false} PositionsGrow(blanks: seq<bool>, m: nat, n: nat)
    requires m <= n <= |blanks|
    ensures Positions(blanks, m) <= Positions(blanks, n)
  {
    if m < n {
      PositionsGrow(blanks, m, n - 1);
    }
  }

  lemma {:induction false} PositionsBefore(blanks: seq<bool>, n: nat)
    requires n <= |blanks|
    ensures |Positions(blanks, n)| == n <==> forall j | 0 <= j < n :: !blanks[j]
  {
    if n > 0 {
      PositionsBefore(blanks, n - 1);
    }
  }

  lemma {:induction false} PositionsAreDistinct(blanks: seq<bool>, n: nat, i: nat, j: nat)
    requires n <= |blanks| && i < |Positions(blanks, n)| && j < |Positions(blanks, n)|
    requires Positions(blanks, n)[i] == Positions(blanks, n)[j]
    ensures i == j
  {
    var front := Positions(blanks, n - 1);
    if i < |front| && j < |front| {
      PositionsAreDistinct(blanks, n - 1, i, j);
    }
  }

  /** Position `p`, when not blank, follows the non-blank ones before it. */
  lemma PositionOf(blanks: seq<bool>, p: nat)
    requires p < |blanks| && !blanks[p]
    ensures var all, k := Positions(blanks, |blanks|), |Positions(blanks, p)|;
            && k < |all| && k <= p && all[k] == p
            && (k == p <==> forall j | 0 <= j < p :: !blanks[j])
            && forall i | 0 <= i < |all| && all[i] == p :: i == k
  {
    PositionsBefore(blanks, p);
    PositionsGrow(blanks, p + 1, |blanks|);
    var all, k := Positions(blanks, |blanks|), |Positions(blanks, p)|;
    assert Positions(blanks, p + 1) == Positions(blanks, p) + [p];
    forall i | 0 <= i < |all| && all[i] == p
      ensures i == k
    {
      PositionsAreDistinct(blanks, |blanks|, i, k);
    }
  }

  lemma CitationOf(docs: seq<Document>, blanks: seq<bool>, citationMax: nat, p: nat)
    requires |blanks| == |docs| && p < |docs| && p < citationMax && !blanks[p]
    ensures var citations := CitationsAt(docs, CitedPositions(blanks, citationMax));
            var k := |Positions(blanks, p)|;
            && k < |citations| && k <= p && citations[k] == Citation(k + 1, Label(k + 1), p, docs[p])
            && ((p < |citations| && citations[p].position == p) <==> forall j | 0 <= j < p :: !blanks[j])
  {
    PositionOf(blanks, p);
  }

  lemma EntryOf(docs: seq<Document>, citationMax: nat, p: nat, strip: string -> string)
    requires p < |docs| && p < citationMax && !Blank(docs[p], strip)
    ensures var entries := DocCandidates(FirstDocs(docs, citationMax), strip);
            p < |entries| && entries[p] == Some(Entry(docs[p], p + 1, strip))
  {
  }

  /** The prompt's entry with label [p + 1] and the citation with that number are about the same place of the
      ranked list exactly when no blank document stands before it; in any case that document has a citation, with
      the same number or a smaller one. */
  lemma LabelIsCitationIff(docs: seq<Document>, citationMax: nat, p: nat, strip: string -> string)
    requires p < |docs| && p < citationMax && !Blank(docs[p], strip)
    ensures var entries := DocCandidates(FirstDocs(docs, citationMax), strip);
            p < |entries| && entries[p] == Some(Entry(docs[p], p + 1, strip))
    ensures var citations := Citations(docs, citationMax, strip);
            (p < |citations| && citations[p].position == p) <==> forall j | 0 <= j < p :: !Blank(docs[j], strip)
    ensures var citations := Citations(docs, citationMax, strip);
            exists k | 0 <= k <= p && k < |citations| :: citations[k] == Citation(k + 1, Label(k + 1), p, docs[p])
  {
    var blanks := Blanks(docs, strip);
    CitationOf(docs, blanks, citationMax, p);
    EntryOf(docs, citationMax, p, strip);
    assert forall j | 0 <= j < p :: blanks[j] == Blank(docs[j], strip);
  }

  lemma SecondOfTwo(docs: seq<Document>)
    requires |docs| == 2
    ensures CitationsAt(docs, CitedPositions([true, false], 5)) == [Citation(1, Label(1), 1, docs[1])]
  {
    assert Positions([true, false], 1) == [];
    assert Positions([true, false], 2) == [1];
  }

  /** One blank document is enough: the prompt calls the second document [2], its citation is [1], and there is no
      citation [2]. */
  lemma BlankShiftsCitations(strip: string -> string)
    requires strip("") == "" && strip("x") == "x"
    ensures var docs := [Document("local", [], None, ""), Document("local", [], None, "x")];
            && DocCandidates(FirstDocs(docs, 5), strip) == [None, Some(Entry(docs[1], 2, strip))]
            && Citations(docs, 5, strip) == [Citation(1, Label(1), 1, docs[1])]
  {
    var docs := [Document("local", [], None, ""), Document("local", [], None, "x")];
    assert Blank(docs[0], strip) && !Blank(docs[1], strip);
    assert Blanks(docs, strip) == [true, false];
    SecondOfTwo(docs);
    EntryOf(docs, 5, 1, strip);
  }
}
