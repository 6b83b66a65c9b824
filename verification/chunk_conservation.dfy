/** Cutting, merging and filling in lose no text: what is left of a document when white space and
    repeated titles are taken away. */
module ChunkConservation {
  import opened Basics
  import opened Decimals
  import opened MarkdownText
  import opened SectionMerge
  import opened ChunkRefinement
  import opened Wrappers

  // ------------------------------------------------------- text without white space

  /** Those of the first `n` characters that are no white space, in order. */
  function MarrowOf(s: string, n: nat, isSpace: char -> bool): string
    requires n <= |s|
  {
    if n == 0 then "" else MarrowOf(s, n - 1, isSpace) + (if isSpace(s[n - 1]) then "" else [s[n - 1]])
  }

  function Marrow(s: string, isSpace: char -> bool): string {
    MarrowOf(s, |s|, isSpace)
  }

  lemma {:induction false} MarrowOfFirst(a: string, b: string, n: nat, isSpace: char -> bool)
    requires n <= |a|
    ensures MarrowOf(a + b, n, isSpace) == MarrowOf(a, n, isSpace)
  {
    if n > 0 {
      MarrowOfFirst(a, b, n - 1, isSpace);
    }
  }

  lemma {:induction false} MarrowOfSecond(a: string, b: string, n: nat, isSpace: char -> bool)
    requires n <= |b|
    ensures MarrowOf(a + b, |a| + n, isSpace) == Marrow(a, isSpace) + MarrowOf(b, n, isSpace)
  {
    if n == 0 {
      MarrowOfFirst(a, b, |a|, isSpace);
    } else {
      MarrowOfSecond(a, b, n - 1, isSpace);
      assert (a + b)[|a| + n - 1] == b[n - 1];
    }
  }

  lemma MarrowConcat(a: string, b: string, isSpace: char -> bool)
    ensures Marrow(a + b, isSpace) == Marrow(a, isSpace) + Marrow(b, isSpace)
  {
    MarrowOfSecond(a, b, |b|, isSpace);
  }

  lemma {:induction false} SpacesOnly(s: string, n: nat, isSpace: char -> bool)
    requires n <= |s| && forall i | 0 <= i < n :: isSpace(s[i])
    ensures MarrowOf(s, n, isSpace) == ""
  {
    if n > 0 {
      SpacesOnly(s, n - 1, isSpace);
    }
  }

  lemma SpacesHaveNoMarrow(s: string, isSpace: char -> bool)
    requires forall i | 0 <= i < |s| :: isSpace(s[i])
    ensures Marrow(s, isSpace) == ""
  {
    SpacesOnly(s, |s|, isSpace);
  }

  lemma MarrowOfSuffix(s: string, rest: string, isSpace: char -> bool)
    requires |rest| <= |s| && rest == s[|s| - |rest|..] && forall i | 0 <= i < |s| - |rest| :: isSpace(s[i])
    ensures Marrow(rest, isSpace) == Marrow(s, isSpace)
  {
    var front := s[..|s| - |rest|];
    assert s == front + rest;
    SpacesHaveNoMarrow(front, isSpace);
    MarrowConcat(front, rest, isSpace);
  }

  lemma MarrowOfPrefix(s: string, rest: string, isSpace: char -> bool)
    requires |rest| <= |s| && rest == s[..|rest|] && forall i | |rest| <= i < |s| :: isSpace(s[i])
    ensures Marrow(rest, isSpace) == Marrow(s, isSpace)
  {
    var back := s[|rest|..];
    assert s == rest + back;
    SpacesHaveNoMarrow(back, isSpace);
    MarrowConcat(rest, back, isSpace);
  }

  lemma StripKeepsMarrow(s: string, isSpace: char -> bool)
    ensures Marrow(Strip(s, isSpace), isSpace) == Marrow(s, isSpace)
    ensures Marrow(LeftStrip(s, isSpace), isSpace) == Marrow(s, isSpace)
  {
    LeftStripped(s, isSpace);
    RightStripped(LeftStrip(s, isSpace), isSpace);
    MarrowOfSuffix(s, LeftStrip(s, isSpace), isSpace);
    MarrowOfPrefix(LeftStrip(s, isSpace), Strip(s, isSpace), isSpace);
  }

  lemma StrippedHasMarrow(s: string, isSpace: char -> bool)
    ensures Strip(s, isSpace) == "" <==> Marrow(s, isSpace) == ""
  {
    StripKeepsMarrow(s, isSpace);
    var text := Strip(s, isSpace);
    RightStripped(LeftStrip(s, isSpace), isSpace);
    if text != "" {
      assert !isSpace(text[|text| - 1]);
    }
  }

  lemma BlankLine(isSpace: char -> bool)
    requires isSpace('\n')
    ensures Marrow("\n\n", isSpace) == ""
  {
    SpacesHaveNoMarrow("\n\n", isSpace);
  }

  // ------------------------------------------------------------- one cut section

  lemma PrefixMarrow(title: string, isSpace: char -> bool)
    requires isSpace('\n')
    ensures Marrow(Prefix(title), isSpace) == Marrow(title, isSpace)
  {
    MarrowConcat(title, "\n\n", isSpace);
    BlankLine(isSpace);
  }

  lemma StrippedMarrow(content: string, whole: string, prefix: string, text: string, isSpace: char -> bool)
    requires whole == prefix + text && content == Strip(whole, isSpace)
    ensures Marrow(content, isSpace) == Marrow(prefix, isSpace) + Marrow(text, isSpace)
  {
    StripKeepsMarrow(whole, isSpace);
    MarrowConcat(prefix, text, isSpace);
  }

  lemma SubsectionMarrow(s: Section, text: string, n: nat, lib: Library)
    requires lib.isSpace('\n')
    ensures Marrow(Subsection(s, text, n, lib).content, lib.isSpace)
         == Marrow(s.title, lib.isSpace) + Marrow(text, lib.isSpace)
  {
    PrefixMarrow(s.title, lib.isSpace);
    StrippedMarrow(Subsection(s, text, n, lib).content, Prefix(s.title) + text, Prefix(s.title), text, lib.isSpace);
  }

  /** Piece number `i` became this chunk: its own title and number, the section's names, and for text the section's
      title and the piece. */
  ghost predicate IsPiece(chunk: Section, s: Section, piece: string, i: nat, isSpace: char -> bool) {
    && chunk.title == (if s.title == "" then "chunk" else s.title) + "-" + Decimal(i + 1)
    && chunk.part == Some(i + 1) && chunk.parentTitle == Some(s.title) && chunk.fileTitle == s.fileTitle
    && Marrow(chunk.content, isSpace) == Marrow(s.title, isSpace) + Marrow(piece, isSpace)
  }

  /** The chunks are, in order, the pieces that are not blank; `kept` holds their numbers. */
  ghost predicate ArePieces(chunks: seq<Section>, s: Section, pieces: seq<string>, kept: seq<nat>, n: nat, isSpace: char -> bool)
    requires n <= |pieces|
  {
    && |chunks| == |kept|
    && (forall i, j | 0 <= i < j < |kept| :: kept[i] < kept[j])
    && (forall i: nat :: i in kept <==> i < n && Marrow(pieces[i], isSpace) != "")
    && forall j | 0 <= j < |kept| :: kept[j] < n && IsPiece(chunks[j], s, pieces[kept[j]], kept[j], isSpace)
  }

  lemma OnePieceMore(chunks: seq<Section>, s: Section, pieces: seq<string>, kept: seq<nat>, n: nat, chunk: Section,
                     isSpace: char -> bool)
    requires n < |pieces| && ArePieces(chunks, s, pieces, kept, n, isSpace)
    requires Marrow(pieces[n], isSpace) != "" && IsPiece(chunk, s, pieces[n], n, isSpace)
    ensures ArePieces(chunks + [chunk], s, pieces, kept + [n], n + 1, isSpace)
  {
    var kept' := kept + [n];
    assert forall i: nat :: i in kept' <==> i in kept || i == n;
  }

  lemma NoPieceMore(chunks: seq<Section>, s: Section, pieces: seq<string>, kept: seq<nat>, n: nat, isSpace: char -> bool)
    requires n < |pieces| && ArePieces(chunks, s, pieces, kept, n, isSpace) && Marrow(pieces[n], isSpace) == ""
    ensures ArePieces(chunks, s, pieces, kept, n + 1, isSpace)
  {
  }

  lemma PieceIsKept(s: Section, piece: string, n: nat, lib: Library)
    requires lib.isSpace('\n') && n >= 1
    ensures var chunks := FromPiece(s, piece, n, lib);
            if Marrow(piece, lib.isSpace) == "" then chunks == []
            else |chunks| == 1 && IsPiece(chunks[0], s, piece, n - 1, lib.isSpace)
  {
    StrippedHasMarrow(piece, lib.isSpace);
    StripKeepsMarrow(piece, lib.isSpace);
    SubsectionMarrow(s, Strip(piece, lib.isSpace), n, lib);
  }

  /** What one more piece adds to the chunks. */
  ghost predicate Adds(chunks: seq<Section>, s: Section, piece: string, i: nat, isSpace: char -> bool) {
    if Marrow(piece, isSpace) == "" then chunks == []
    else |chunks| == 1 && IsPiece(chunks[0], s, piece, i, isSpace)
  }

  lemma NextPiece(before: seq<Section>, chunks: seq<Section>, s: Section, pieces: seq<string>, kept: seq<nat>, n: nat,
                  isSpace: char -> bool) returns (kept': seq<nat>)
    requires n < |pieces| && ArePieces(before, s, pieces, kept, n, isSpace) && Adds(chunks, s, pieces[n], n, isSpace)
    ensures ArePieces(before + chunks, s, pieces, kept', n + 1, isSpace)
  {
    if chunks == [] {
      assert before + chunks == before;
      NoPieceMore(before, s, pieces, kept, n, isSpace);
      kept' := kept;
    } else {
      assert chunks == [chunks[0]];
      OnePieceMore(before, s, pieces, kept, n, chunks[0], isSpace);
      kept' := kept + [n];
    }
  }

  /** What the first `n` pieces add, put together. */
  function GatherBy(part: nat -> seq<Section>, n: nat): seq<Section> {
    if n == 0 then [] else GatherBy(part, n - 1) + part(n - 1)
  }

  function PartBy(s: Section, pieces: seq<string>, lib: Library): nat -> seq<Section> {
    (i: nat) => if i < |pieces| then FromPiece(s, pieces[i], i + 1, lib) else []
  }

  lemma {:induction false} SubsectionsAreGathered(s: Section, pieces: seq<string>, n: nat, lib: Library)
    requires n <= |pieces|
    ensures Subsections(s, pieces, n, lib) == GatherBy(PartBy(s, pieces, lib), n)
    decreases n
  {
    if n > 0 {
      SubsectionsAreGathered(s, pieces, n - 1, lib);
    }
  }

  lemma {:induction false} GatheredArePieces(part: nat -> seq<Section>, s: Section, pieces: seq<string>, n: nat, isSpace: char -> bool)
    returns (kept: seq<nat>)
    requires n <= |pieces| && forall i | 0 <= i < n :: Adds(part(i), s, pieces[i], i, isSpace)
    ensures ArePieces(GatherBy(part, n), s, pieces, kept, n, isSpace)
    decreases n
  {
    kept := [];
    if n > 0 {
      kept := GatheredArePieces(part, s, pieces, n - 1, isSpace);
      kept := NextPiece(GatherBy(part, n - 1), part(n - 1), s, pieces, kept, n - 1, isSpace);
    }
  }

  /** Cutting keeps every piece that is not blank, in order, each under the section's title. */
  lemma CutKeepsPieces(s: Section, pieces: seq<string>, n: nat, lib: Library) returns (kept: seq<nat>)
    requires lib.isSpace('\n') && n <= |pieces|
    ensures ArePieces(Subsections(s, pieces, n, lib), s, pieces, kept, n, lib.isSpace)
  {
    var part := PartBy(s, pieces, lib);
    forall i | 0 <= i < n
      ensures Adds(part(i), s, pieces[i], i, lib.isSpace)
    {
      PieceIsKept(s, pieces[i], i + 1, lib);
    }
    SubsectionsAreGathered(s, pieces, n, lib);
    kept := GatheredArePieces(part, s, pieces, n, lib.isSpace);
  }

  // ------------------------------------------------------- the text of one section

  function Text(parts: seq<string>): string {
    if parts == [] then "" else Text(parts[..|parts| - 1]) + parts[|parts| - 1]
  }

  lemma {:induction false} TextConcat(a: seq<string>, b: seq<string>)
    ensures Text(a + b) == Text(a) + Text(b)
    decreases |b|
  {
    if b == [] {
      assert a + b == a;
    } else {
      var n := |b| - 1;
      TextConcat(a, b[..n]);
      assert (a + b)[..|a + b| - 1] == a + b[..n];
    }
  }

  /** The splitter of the library loses white space only. */
  ghost predicate LosesOnlySpace(lib: Library) {
    forall body, room :: Marrow(Text(lib.pieces(body, room)), lib.isSpace) == Marrow(body, lib.isSpace)
  }

  /** A chunk's text without a repeated parent title at its start. */
  function Core(t: Section, isSpace: char -> bool): string {
    Marrow(Body(t, isSpace), isSpace)
  }

  /** The title that the chunk repeats. */
  function Head(t: Section, isSpace: char -> bool): string {
    if |Body(t, isSpace)| < |t.content| then Marrow(ParentTitle(t), isSpace) else ""
  }

  lemma HeadAndCore(t: Section, isSpace: char -> bool)
    ensures Marrow(t.content, isSpace) == Head(t, isSpace) + Core(t, isSpace)
  {
    var body, title := Body(t, isSpace), ParentTitle(t);
    BodyLosesOnlyTitle(t, isSpace);
    var n := |t.content| - |body|;
    if n > 0 {
      var rest := t.content[|title|..];
      assert t.content == title + rest;
      MarrowConcat(title, rest, isSpace);
      assert body == rest[|rest| - |body|..];
      assert forall i | 0 <= i < |rest| - |body| :: rest[i] == t.content[|title| + i];
      MarrowOfSuffix(rest, body, isSpace);
    }
  }

  function TextBy(chunks: seq<Section>, core: Section -> string): string {
    if chunks == [] then "" else core(chunks[0]) + TextBy(chunks[1..], core)
  }

  lemma {:induction false} TextByConcat(a: seq<Section>, b: seq<Section>, core: Section -> string)
    ensures TextBy(a + b, core) == TextBy(a, core) + TextBy(b, core)
  {
    if a == [] {
      assert a + b == b;
    } else {
      TextByConcat(a[1..], b, core);
      assert (a + b)[1..] == a[1..] + b;
      Associate(core(a[0]), TextBy(a[1..], core), TextBy(b, core));
    }
  }

  function CoreBy(isSpace: char -> bool): Section -> string {
    t => Core(t, isSpace)
  }

  /** The texts of the chunks, one after the other. */
  function Cores(chunks: seq<Section>, isSpace: char -> bool): string {
    TextBy(chunks, CoreBy(isSpace))
  }

  lemma CoresConcat(a: seq<Section>, b: seq<Section>, isSpace: char -> bool)
    ensures Cores(a + b, isSpace) == Cores(a, isSpace) + Cores(b, isSpace)
  {
    TextByConcat(a, b, CoreBy(isSpace));
  }

  lemma CoresFirst(chunks: seq<Section>, isSpace: char -> bool)
    requires chunks != []
    ensures Cores(chunks, isSpace) == Core(chunks[0], isSpace) + Cores(chunks[1..], isSpace)
  {
  }

  lemma CoresOne(t: Section, isSpace: char -> bool)
    ensures Cores([t], isSpace) == Core(t, isSpace)
  {
    CoresFirst([t], isSpace);
    assert [t][1..] == [];
  }

  /** The title does not start with white space. */
  predicate NotIndented(title: string, isSpace: char -> bool) {
    title == "" || !isSpace(title[0])
  }

  lemma UntouchedByStrip(s: string, isSpace: char -> bool)
    requires s != "" && !isSpace(s[0]) && !isSpace(s[|s| - 1])
    ensures Strip(s, isSpace) == s
  {
  }

  lemma SubsectionContent(s: Section, text: string, n: nat, lib: Library)
    requires NotIndented(s.title, lib.isSpace) && text != "" && Strip(text, lib.isSpace) == text
    ensures Subsection(s, text, n, lib).content == Prefix(s.title) + text
  {
    LeftStripped(text, lib.isSpace);
    RightStripped(LeftStrip(text, lib.isSpace), lib.isSpace);
    UntouchedByStrip(Prefix(s.title) + text, lib.isSpace);
  }

  lemma CoreAfterTitle(chunk: Section, title: string, text: string, isSpace: char -> bool)
    requires isSpace('\n') && chunk.parentTitle == Some(title) && chunk.content == Prefix(title) + text
    ensures Core(chunk, isSpace) == Marrow(text, isSpace)
  {
    if title != "" {
      var rest := "\n\n" + text;
      assert chunk.content == title + rest && chunk.content[|title|..] == rest;
      StripKeepsMarrow(rest, isSpace);
      MarrowConcat("\n\n", text, isSpace);
      BlankLine(isSpace);
    } else {
      assert chunk.content == text;
    }
  }

  /** What a cut chunk keeps after its repeated title is its piece. */
  lemma SubsectionCore(s: Section, text: string, n: nat, lib: Library)
    requires lib.isSpace('\n') && NotIndented(s.title, lib.isSpace) && text != "" && Strip(text, lib.isSpace) == text
    ensures Core(Subsection(s, text, n, lib), lib.isSpace) == Marrow(text, lib.isSpace)
  {
    SubsectionContent(s, text, n, lib);
    CoreAfterTitle(Subsection(s, text, n, lib), s.title, text, lib.isSpace);
  }

  lemma StripTwice(s: string, isSpace: char -> bool)
    ensures Strip(Strip(s, isSpace), isSpace) == Strip(s, isSpace)
  {
    var left, text := LeftStrip(s, isSpace), Strip(s, isSpace);
    LeftStripped(s, isSpace);
    RightStripped(left, isSpace);
    if text != "" {
      assert text[0] == left[0];
      UntouchedByStrip(text, isSpace);
    }
  }

  lemma PieceCore(s: Section, piece: string, n: nat, lib: Library)
    requires lib.isSpace('\n') && NotIndented(s.title, lib.isSpace)
    ensures Cores(FromPiece(s, piece, n, lib), lib.isSpace) == Marrow(piece, lib.isSpace)
  {
    var text := Strip(piece, lib.isSpace);
    StrippedHasMarrow(piece, lib.isSpace);
    StripKeepsMarrow(piece, lib.isSpace);
    StripTwice(piece, lib.isSpace);
    if text != "" {
      SubsectionCore(s, text, n, lib);
      CoresOne(Subsection(s, text, n, lib), lib.isSpace);
    }
  }

  lemma {:induction false} PiecesCore(s: Section, pieces: seq<string>, n: nat, lib: Library)
    requires lib.isSpace('\n') && NotIndented(s.title, lib.isSpace) && n <= |pieces|
    ensures Cores(Subsections(s, pieces, n, lib), lib.isSpace) == Marrow(Text(pieces[..n]), lib.isSpace)
    decreases n
  {
    if n > 0 {
      PiecesCore(s, pieces, n - 1, lib);
      PieceCore(s, pieces[n - 1], n, lib);
      CoresConcat(Subsections(s, pieces, n - 1, lib), FromPiece(s, pieces[n - 1], n, lib), lib.isSpace);
      assert pieces[..n][..n - 1] == pieces[..n - 1];
      MarrowConcat(Text(pieces[..n - 1]), pieces[n - 1], lib.isSpace);
    }
  }

  /** The text of a section: what is left of its content without a title at its start. */
  function SectionText(s: Section, lib: Library): string {
    if StaysWhole(s) then Core(s, lib.isSpace) else Marrow(LongBody(s.content, s.title, lib.isSpace), lib.isSpace)
  }

  /** At most one title is missing from it: the repeated parent title, or the section's own. */
  lemma SectionTextIs(s: Section, lib: Library)
    ensures var whole, text := Marrow(s.content, lib.isSpace), SectionText(s, lib);
            whole == text || whole == Marrow(ParentTitle(s), lib.isSpace) + text || whole == Marrow(s.title, lib.isSpace) + text
  {
    if StaysWhole(s) {
      HeadAndCore(s, lib.isSpace);
    } else {
      LongBodyMarrow(s.content, s.title, lib.isSpace);
    }
  }

  lemma LongBodyMarrow(content: string, title: string, isSpace: char -> bool)
    ensures var whole, text := Marrow(content, isSpace), Marrow(LongBody(content, title, isSpace), isSpace);
            whole == text || whole == Marrow(title, isSpace) + text
  {
    var body := LongBody(content, title, isSpace);
    LongBodyKeepsText(content, title, isSpace);
    if body != content {
      var at: nat, end: nat :| OnlyTitleBefore(content, title, at, end, isSpace) && body == content[end..];
      TitleBetweenSpaces(content, title, at, end, isSpace);
    }
  }

  lemma TitleBetweenSpaces(content: string, title: string, at: nat, end: nat, isSpace: char -> bool)
    requires OnlyTitleBefore(content, title, at, end, isSpace)
    ensures Marrow(content, isSpace) == Marrow(title, isSpace) + Marrow(content[end..], isSpace)
  {
    var rest := content[at..];
    var after := rest[|title|..];
    assert content == content[..at] + rest && rest == title + after;
    MarrowOfSuffix(content, rest, isSpace);
    MarrowConcat(title, after, isSpace);
    assert after[end - at - |title|..] == content[end..];
    assert forall i | 0 <= i < end - at - |title| :: after[i] == content[at + |title| + i];
    MarrowOfSuffix(after, content[end..], isSpace);
  }

  /** Cutting a section keeps its text. */
  lemma SplitKeepsText(s: Section, lib: Library)
    requires lib.isSpace('\n') && NotIndented(s.title, lib.isSpace) && LosesOnlySpace(lib)
    ensures Cores(SplitLong(s, lib), lib.isSpace) == SectionText(s, lib)
  {
    if StaysWhole(s) {
      CoresOne(s, lib.isSpace);
    } else {
      var pieces := Pieces(s, lib);
      PiecesCore(s, pieces, |pieces|, lib);
      assert pieces[..|pieces|] == pieces;
    }
  }

  function SectionTexts(sections: seq<Section>, lib: Library): string {
    if sections == [] then ""
    else SectionTexts(sections[..|sections| - 1], lib) + SectionText(sections[|sections| - 1], lib)
  }

  lemma {:induction false} SplitAllKeepsText(sections: seq<Section>, lib: Library)
    requires lib.isSpace('\n') && LosesOnlySpace(lib) && forall s | s in sections :: NotIndented(s.title, lib.isSpace)
    ensures Cores(SplitAll(sections, lib), lib.isSpace) == SectionTexts(sections, lib)
  {
    if sections != [] {
      var n := |sections| - 1;
      SplitAllKeepsText(sections[..n], lib);
      SplitKeepsText(sections[n], lib);
      CoresConcat(SplitAll(sections[..n], lib), SplitLong(sections[n], lib), lib.isSpace);
    }
  }

  // --------------------------------------------------- through merging and filling in

  lemma BodiesNext(front: string, body: string, isSpace: char -> bool)
    requires isSpace('\n')
    ensures Marrow(front + ("\n\n" + body), isSpace) == Marrow(front, isSpace) + Marrow(body, isSpace)
  {
    MarrowConcat(front, "\n\n" + body, isSpace);
    MarrowConcat("\n\n", body, isSpace);
    BlankLine(isSpace);
  }

  /** `Bodies` for any rule that says what a chunk contributes. */
  function JoinBy(run: seq<Section>, body: Section -> string): string {
    if run == [] then "" else JoinBy(run[..|run| - 1], body) + ("\n\n" + body(run[|run| - 1]))
  }

  function BodyBy(isSpace: char -> bool): Section -> string {
    t => Body(t, isSpace)
  }

  lemma {:induction false} BodiesAreJoined(run: seq<Section>, isSpace: char -> bool)
    ensures Bodies(run, isSpace) == JoinBy(run, BodyBy(isSpace))
  {
    if run != [] {
      BodiesAreJoined(run[..|run| - 1], isSpace);
    }
  }

  lemma {:induction false} TextBySnoc(run: seq<Section>, last: Section, core: Section -> string)
    ensures TextBy(run + [last], core) == TextBy(run, core) + core(last)
  {
    TextByConcat(run, [last], core);
    assert [last][1..] == [];
  }

  lemma {:induction false} JoinedMarrow(run: seq<Section>, body: Section -> string, core: Section -> string, isSpace: char -> bool)
    requires isSpace('\n') && forall t :: core(t) == Marrow(body(t), isSpace)
    ensures Marrow(JoinBy(run, body), isSpace) == TextBy(run, core)
  {
    if run != [] {
      var front, last := run[..|run| - 1], run[|run| - 1];
      JoinedMarrow(front, body, core, isSpace);
      BodiesNext(JoinBy(front, body), body(last), isSpace);
      TextBySnoc(front, last, core);
      assert run == front + [last];
    }
  }

  lemma BodiesMarrow(run: seq<Section>, isSpace: char -> bool)
    requires isSpace('\n')
    ensures Marrow(Bodies(run, isSpace), isSpace) == Cores(run, isSpace)
  {
    BodiesAreJoined(run, isSpace);
    JoinedMarrow(run, BodyBy(isSpace), CoreBy(isSpace), isSpace);
  }

  lemma HeadThenCores(whole: string, first: string, rest: string, head: string, core: string, cores: string,
                      isSpace: char -> bool)
    requires whole == first + rest && Marrow(first, isSpace) == head + core && Marrow(rest, isSpace) == cores
    ensures Marrow(whole, isSpace) == head + (core + cores)
  {
    MarrowConcat(first, rest, isSpace);
    Associate(head, core, cores);
  }

  /** A folded run holds one title at most and the texts of all its chunks. */
  lemma FoldedMarrow(run: seq<Section>, isSpace: char -> bool)
    requires isSpace('\n') && run != []
    ensures Marrow(Folded(run, isSpace).content, isSpace) == Head(run[0], isSpace) + Cores(run, isSpace)
  {
    FoldedContent(run, isSpace);
    HeadAndCore(run[0], isSpace);
    CoresFirst(run, isSpace);
    BodiesMarrow(run[1..], isSpace);
    HeadThenCores(Folded(run, isSpace).content, run[0].content, Bodies(run[1..], isSpace),
                  Head(run[0], isSpace), Core(run[0], isSpace), Cores(run[1..], isSpace), isSpace);
  }

  function RunCores(runs: seq<seq<Section>>, isSpace: char -> bool): (r: seq<string>)
    ensures |r| == |runs|
  {
    if runs == [] then [] else [Cores(runs[0], isSpace)] + RunCores(runs[1..], isSpace)
  }

  lemma {:induction false} RunCoresAt(runs: seq<seq<Section>>, isSpace: char -> bool, j: nat)
    requires j < |runs|
    ensures RunCores(runs, isSpace)[j] == Cores(runs[j], isSpace)
  {
    if j > 0 {
      RunCoresAt(runs[1..], isSpace, j - 1);
    }
  }

  lemma TextCons(first: string, rest: seq<string>)
    ensures Text([first] + rest) == first + Text(rest)
  {
    TextConcat([first], rest);
    assert [first][..0] == [] && Text([first]) == Text([]) + first;
  }

  lemma {:induction false} RunCoresConcat(runs: seq<seq<Section>>, isSpace: char -> bool)
    ensures Text(RunCores(runs, isSpace)) == Cores(Concat(runs), isSpace)
  {
    if runs != [] {
      RunCoresConcat(runs[1..], isSpace);
      TextCons(Cores(runs[0], isSpace), RunCores(runs[1..], isSpace));
      CoresConcat(runs[0], Concat(runs[1..]), isSpace);
    }
  }

  /** The chunk's text is its share, with its parent title in front at most once. */
  ghost predicate Shares(chunk: Section, share: string, isSpace: char -> bool) {
    var whole := Marrow(chunk.content, isSpace);
    whole == share || whole == Marrow(ParentTitle(chunk), isSpace) + share
  }

  /** The chunks share a text among them, in order. */
  ghost predicate AllShare(chunks: seq<Section>, shares: seq<string>, text: string, isSpace: char -> bool) {
    && |shares| == |chunks| && Text(shares) == text
    && forall j | 0 <= j < |chunks| :: Shares(chunks[j], shares[j], isSpace)
  }

  /** Merging loses nothing but repeated parent titles: the merged chunks share the texts of the given ones. */
  lemma MergeKeepsText(chunks: seq<Section>, isSpace: char -> bool) returns (shares: seq<string>)
    requires isSpace('\n')
    ensures AllShare(Merge(chunks, isSpace), shares, Cores(chunks, isSpace), isSpace)
  {
    var runs := MergeFoldsRuns(chunks, isSpace);
    var merged := Merge(chunks, isSpace);
    shares := RunCores(runs, isSpace);
    RunCoresConcat(runs, isSpace);
    forall j | 0 <= j < |merged|
      ensures Shares(merged[j], shares[j], isSpace)
    {
      RunCoresAt(runs, isSpace, j);
      FoldedMarrow(runs[j], isSpace);
      FoldedContent(runs[j], isSpace);
    }
  }

  lemma FilledShares(chunk: Section, share: string, isSpace: char -> bool)
    requires Shares(chunk, share, isSpace)
    ensures Shares(Filled(chunk), share, isSpace)
  {
    if ParentTitle(chunk) == "" {
      assert Marrow("", isSpace) + share == share;
    }
  }

  /** The refined chunks share the texts of the sections, in order, each with a parent title in front at most once:
      with a splitter that loses white space only, refinement loses white space and repeated titles only. */
  lemma RefineKeepsText(sections: seq<Section>, lib: Library) returns (shares: seq<string>)
    requires lib.isSpace('\n') && LosesOnlySpace(lib) && forall s | s in sections :: NotIndented(s.title, lib.isSpace)
    ensures AllShare(Refine(sections, lib), shares, SectionTexts(sections, lib), lib.isSpace)
  {
    var chunks := SplitAll(sections, lib);
    SplitAllKeepsText(sections, lib);
    shares := MergeKeepsText(chunks, lib.isSpace);
    var merged := Merge(chunks, lib.isSpace);
    forall j | 0 <= j < |merged|
      ensures Shares(Refine(sections, lib)[j], shares[j], lib.isSpace)
    {
      FilledShares(merged[j], shares[j], lib.isSpace);
    }
  }
}
