/** Step 4 of the Markdown splitter: cut what is long, merge what is short, fill in parent titles.
    A chunk is a value here: growing one replaces it. */
module ChunkRefinement {
  import opened Basics
  import opened Decimals
  import opened MarkdownText
  import opened SectionMerge
  import opened Wrappers

  const DEFAULT_MAX_CONTENT_LENGTH := 2000

  /** `pieces` is the library's text splitter. */
  datatype Library = Library(isSpace: char -> bool, pieces: (string, nat) -> seq<string>)

  // ------------------------------------------------------- cutting one section

  function Prefix(title: string): string {
    if title == "" then "" else title + "\n\n"
  }

  /** `s.find(part)` from position `from`: the first match, or -1. */
  function Find(s: string, part: string, from: nat): int
    requires from <= |s|
    decreases |s| - from
  {
    if StartsWith(s[from..], part) then from
    else if from == |s| then -1
    else Find(s, part, from + 1)
  }

  lemma OtherFirstCharacter(s: string, part: string, from: nat)
    requires from < |s| && part != "" && s[from] != part[0]
    ensures !StartsWith(s[from..], part)
  {
    assert s[from..][0] == s[from];
  }

  lemma {:induction false} FindSkipsSpaces(s: string, title: string, from: nat, isSpace: char -> bool)
    requires var stripped := LeftStrip(s, isSpace); title != "" && StartsWith(stripped, title) && from <= |s| - |stripped|
    ensures Find(s, title, from) == |s| - |LeftStrip(s, isSpace)|
    decreases |s| - from
  {
    var stripped := LeftStrip(s, isSpace);
    LeftStripped(s, isSpace);
    if from < |s| - |stripped| {
      assert isSpace(s[from]) && title[0] == stripped[0];
      OtherFirstCharacter(s, title, from);
      FindSkipsSpaces(s, title, from + 1, isSpace);
    }
  }

  /** The text to be cut: the content without a repeated title at its start. */
  function LongBody(content: string, title: string, isSpace: char -> bool): string {
    if title != "" && StartsWith(LeftStrip(content, isSpace), title)
    then AfterTitle(content, Find(content, title, 0), |title|, isSpace)
    else content
  }

  /** What follows the `n` characters at `at`. */
  function AfterTitle(content: string, at: int, n: nat, isSpace: char -> bool): string {
    if 0 <= at <= |content| - n then LeftStrip(content[at + n..], isSpace) else ""
  }

  /** The title stands at `at` between white space, and the body starts at `end`. */
  ghost predicate OnlyTitleBefore(content: string, title: string, at: nat, end: nat, isSpace: char -> bool) {
    && at + |title| <= end <= |content|
    && content[at..at + |title|] == title
    && (forall i | 0 <= i < at :: isSpace(content[i]))
    && forall i | at + |title| <= i < end :: isSpace(content[i])
  }

  /** A title at the start of the content is left out with the white space around it, and nothing else ever is. */
  lemma LongBodyKeepsText(content: string, title: string, isSpace: char -> bool)
    ensures var body := LongBody(content, title, isSpace);
            if title != "" && StartsWith(LeftStrip(content, isSpace), title)
            then (body == "" || !isSpace(body[0]))
                 && exists at: nat, end: nat :: OnlyTitleBefore(content, title, at, end, isSpace) && body == content[end..]
            else body == content
  {
    var stripped := LeftStrip(content, isSpace);
    if title != "" && StartsWith(stripped, title) {
      FindSkipsSpaces(content, title, 0, isSpace);
      LeftStripped(content, isSpace);
      var at := |content| - |stripped|;
      var rest := content[at + |title|..];
      var body := LeftStrip(rest, isSpace);
      LeftStripped(rest, isSpace);
      assert stripped == content[at..];
      LongBodyAfter(content, title, at, isSpace);
      TitleThenSpaces(content, title, at, rest, body, isSpace);
      assert OnlyTitleBefore(content, title, at, |content| - |body|, isSpace);
    }
  }

  lemma LongBodyAfter(content: string, title: string, at: nat, isSpace: char -> bool)
    requires title != "" && StartsWith(LeftStrip(content, isSpace), title)
    requires at + |title| <= |content| && Find(content, title, 0) == at
    ensures LongBody(content, title, isSpace) == LeftStrip(content[at + |title|..], isSpace)
  {
  }

  lemma TitleThenSpaces(content: string, title: string, at: nat, rest: string, body: string, isSpace: char -> bool)
    requires at + |title| <= |content| && content[at..][..|title|] == title && rest == content[at + |title|..]
    requires |body| <= |rest| && body == rest[|rest| - |body|..]
    requires forall i | 0 <= i < at :: isSpace(content[i])
    requires forall i | 0 <= i < |rest| - |body| :: isSpace(rest[i])
    ensures OnlyTitleBefore(content, title, at, |content| - |body|, isSpace)
    ensures body == content[|content| - |body|..]
  {
    StripOfSuffix(content, at + |title|, body, isSpace);
    SliceOfSuffix(content, at, |title|);
  }

  lemma SliceOfSuffix(s: string, at: nat, n: nat)
    requires at + n <= |s|
    ensures s[at..at + n] == s[at..][..n]
  {
  }

  lemma StripOfSuffix(s: string, m: nat, body: string, isSpace: char -> bool)
    requires m <= |s| && |body| <= |s| - m
    requires body == s[m..][|s| - m - |body|..] && forall i | 0 <= i < |s| - m - |body| :: isSpace(s[m..][i])
    ensures body == s[|s| - |body|..] && forall i | m <= i < |s| - |body| :: isSpace(s[i])
  {
    forall i | m <= i < |s| - |body|
      ensures isSpace(s[i])
    {
      assert s[m..][i - m] == s[i];
    }
  }

  function Subsections(s: Section, pieces: seq<string>, n: nat, lib: Library): seq<Section>
    requires n <= |pieces|
  {
    if n == 0 then [] else Subsections(s, pieces, n - 1, lib) + FromPiece(s, pieces[n - 1], n, lib)
  }

  /** A blank piece is skipped, but counts in the numbering. */
  function FromPiece(s: Section, piece: string, n: nat, lib: Library): seq<Section> {
    var text := Strip(piece, lib.isSpace);
    if text == "" then [] else [Subsection(s, text, n, lib)]
  }

  function Subsection(s: Section, text: string, n: nat, lib: Library): Section {
    Section((if s.title == "" then "chunk" else s.title) + "-" + Decimal(n),
            Strip(Prefix(s.title) + text, lib.isSpace), Some(s.title), Some(n), s.fileTitle)
  }

  /** Short content, or a title that leaves no room, is not cut. */
  predicate StaysWhole(s: Section) {
    |s.content| <= DEFAULT_MAX_CONTENT_LENGTH || |Prefix(s.title)| >= DEFAULT_MAX_CONTENT_LENGTH
  }

  function Pieces(s: Section, lib: Library): seq<string>
    requires !StaysWhole(s)
  {
    lib.pieces(LongBody(s.content, s.title, lib.isSpace), DEFAULT_MAX_CONTENT_LENGTH - |Prefix(s.title)|)
  }

  function SplitLong(s: Section, lib: Library): seq<Section> {
    if StaysWhole(s) then [s] else Subsections(s, Pieces(s, lib), |Pieces(s, lib)|, lib)
  }

  function SplitAll(sections: seq<Section>, lib: Library): seq<Section> {
    if sections == [] then [] else SplitAll(sections[..|sections| - 1], lib) + SplitLong(sections[|sections| - 1], lib)
  }

  // ------------------------------------------------------------ length bounds

  ghost predicate SplitterFits(lib: Library) {
    forall body, room, i | 0 <= i < |lib.pieces(body, room)| :: |lib.pieces(body, room)[i]| <= room
  }

  lemma SubsectionLength(s: Section, text: string, n: nat, lib: Library)
    ensures |Subsection(s, text, n, lib).content| <= |Prefix(s.title)| + |text|
  {
    assert |Prefix(s.title) + text| == |Prefix(s.title)| + |text|;
  }

  ghost predicate AllFit(sections: seq<Section>) {
    forall t | t in sections :: |t.content| <= DEFAULT_MAX_CONTENT_LENGTH
  }

  lemma BothFit(a: seq<Section>, b: seq<Section>)
    requires AllFit(a) && AllFit(b)
    ensures AllFit(a + b)
  {
  }

  lemma OnlyFits(sections: seq<Section>, t: Section)
    requires (sections == [] || sections == [t]) && |t.content| <= DEFAULT_MAX_CONTENT_LENGTH
    ensures AllFit(sections)
  {
  }

  lemma PieceFits(s: Section, piece: string, n: nat, lib: Library)
    requires |Prefix(s.title)| + |piece| <= DEFAULT_MAX_CONTENT_LENGTH
    ensures AllFit(FromPiece(s, piece, n, lib))
  {
    SubsectionLength(s, Strip(piece, lib.isSpace), n, lib);
    OnlyFits(FromPiece(s, piece, n, lib), Subsection(s, Strip(piece, lib.isSpace), n, lib));
  }

  lemma {:induction false} SubsectionsFit(s: Section, pieces: seq<string>, n: nat, lib: Library)
    requires n <= |pieces| && |Prefix(s.title)| <= DEFAULT_MAX_CONTENT_LENGTH
    requires forall i | 0 <= i < |pieces| :: |pieces[i]| <= DEFAULT_MAX_CONTENT_LENGTH - |Prefix(s.title)|
    ensures AllFit(Subsections(s, pieces, n, lib))
    decreases n
  {
    if n > 0 {
      SubsectionsFit(s, pieces, n - 1, lib);
      PieceFits(s, pieces[n - 1], n, lib);
      BothFit(Subsections(s, pieces, n - 1, lib), FromPiece(s, pieces[n - 1], n, lib));
    }
  }

  /** With a splitter that keeps to the room it is given, cutting leaves a section over the limit
      exactly when it was over the limit and its title leaves no room. */
  lemma SplitFits(s: Section, lib: Library)
    requires SplitterFits(lib)
    ensures (exists t | t in SplitLong(s, lib) :: |t.content| > DEFAULT_MAX_CONTENT_LENGTH)
       <==> |s.content| > DEFAULT_MAX_CONTENT_LENGTH && |s.title| >= DEFAULT_MAX_CONTENT_LENGTH - 2
  {
    if StaysWhole(s) {
      assert s in SplitLong(s, lib);
    } else {
      SubsectionsFit(s, Pieces(s, lib), |Pieces(s, lib)|, lib);
    }
  }

  /** Only a section whose title leaves no room can be longer than the limit after cutting. */
  lemma {:induction false} SplitAllFits(sections: seq<Section>, lib: Library, longest: nat)
    requires SplitterFits(lib) && longest >= DEFAULT_MAX_CONTENT_LENGTH
    requires forall s | s in sections && |s.title| >= DEFAULT_MAX_CONTENT_LENGTH - 2 :: |s.content| <= longest
    ensures forall t | t in SplitAll(sections, lib) :: |t.content| <= longest
  {
    if sections != [] {
      SplitAllFits(sections[..|sections| - 1], lib, longest);
      SplitFits(sections[|sections| - 1], lib);
    }
  }

  // ------------------------------------------------------------ parent titles

  /** The chunk came from the section: whole, or cut out of it. */
  predicate CutFrom(t: Section, s: Section) {
    t == s || t.parentTitle == Some(s.title)
  }

  lemma {:induction false} SubsectionsAreCut(s: Section, pieces: seq<string>, n: nat, lib: Library)
    requires n <= |pieces|
    ensures forall t | t in Subsections(s, pieces, n, lib) :: CutFrom(t, s)
    decreases n
  {
    if n > 0 {
      SubsectionsAreCut(s, pieces, n - 1, lib);
    }
  }

  lemma {:induction false} SplitAllIsCut(sections: seq<Section>, lib: Library, t: Section)
    requires t in SplitAll(sections, lib)
    ensures exists s | s in sections :: t in SplitLong(s, lib) && CutFrom(t, s)
  {
    var n := |sections| - 1;
    if t in SplitLong(sections[n], lib) {
      if !StaysWhole(sections[n]) {
        SubsectionsAreCut(sections[n], Pieces(sections[n], lib), |Pieces(sections[n], lib)|, lib);
      }
      assert CutFrom(t, sections[n]);
    } else {
      SplitAllIsCut(sections[..n], lib, t);
    }
  }

  // ----------------------------------------------------------- the refinement

  /** A missing or empty parent title becomes the chunk's own title. */
  function Filled(s: Section): Section {
    if ParentTitle(s) == "" then s.(parentTitle := Some(s.title)) else s
  }

  function FillAll(sections: seq<Section>): (r: seq<Section>)
    ensures |r| == |sections|
  {
    seq(|sections|, i requires 0 <= i < |sections| => Filled(sections[i]))
  }

  function Refine(sections: seq<Section>, lib: Library): seq<Section> {
    FillAll(Merge(SplitAll(sections, lib), lib.isSpace))
  }

  /** A document of sections up to the limit, or with titles that leave no room, is only merged. */
  lemma OnlyLongSectionsAreCut(sections: seq<Section>, lib: Library)
    requires forall i | 0 <= i < |sections| ::
               |sections[i].content| <= DEFAULT_MAX_CONTENT_LENGTH || |sections[i].title| + 2 >= DEFAULT_MAX_CONTENT_LENGTH
    ensures Refine(sections, lib) == FillAll(Merge(sections, lib.isSpace))
  {
    NothingIsCut(sections, lib);
  }

  lemma {:induction false} NothingIsCut(sections: seq<Section>, lib: Library)
    requires forall i | 0 <= i < |sections| :: StaysWhole(sections[i])
    ensures SplitAll(sections, lib) == sections
  {
    if sections != [] {
      var n := |sections| - 1;
      NothingIsCut(sections[..n], lib);
      assert SplitLong(sections[n], lib) == [sections[n]];
      assert sections == sections[..n] + [sections[n]];
    }
  }

  /** The chunk has title and parent title of a piece cut from the section. */
  ghost predicate NamedAfter(chunk: Section, s: Section, lib: Library) {
    exists t | t in SplitLong(s, lib) ::
      CutFrom(t, s) && chunk.title == t.title && chunk.parentTitle == Filled(t).parentTitle
  }

  /** Every refined chunk has a parent title, and takes its titles from a piece of an input section: the parent is
      that section's title or parent title, or the chunk's own title when the section has no title. */
  lemma RefinedParents(sections: seq<Section>, lib: Library, j: nat)
    requires j < |Refine(sections, lib)|
    ensures var chunk := Refine(sections, lib)[j];
            && chunk.parentTitle.Some?
            && (chunk.parentTitle.value == "" ==> chunk.title == "")
            && exists s | s in sections ::
                 && NamedAfter(chunk, s, lib)
                 && (chunk.parentTitle == Some(s.title) || chunk.parentTitle == s.parentTitle
                     || (s.title == "" && chunk.parentTitle == Some(chunk.title)))
  {
    var split := SplitAll(sections, lib);
    var runs := MergeFoldsRuns(split, lib.isSpace);
    RunsComeFromInput(runs, j, 0);
    FoldedContent(runs[j], lib.isSpace);
    var t := runs[j][0];
    SplitAllIsCut(sections, lib, t);
    var s :| s in sections && t in SplitLong(s, lib) && CutFrom(t, s);
    assert NamedAfter(Refine(sections, lib)[j], s, lib);
  }

  /** No refined chunk is longer than the longest chunk after cutting plus 501. */
  lemma RefinedLength(sections: seq<Section>, lib: Library, longest: nat, j: nat)
    requires forall t | t in SplitAll(sections, lib) :: |t.content| <= longest
    requires j < |Refine(sections, lib)|
    ensures |Refine(sections, lib)[j].content| <= longest + 501
  {
    MergedLength(SplitAll(sections, lib), lib.isSpace, longest, j);
  }

  /** With pieces that fit, no refined chunk is longer than 2501 characters, except where a title of 1998 or more
      keeps a longer section whole: then the longest such section plus 501. */
  lemma RefinedChunks(sections: seq<Section>, lib: Library, longest: nat, j: nat)
    requires SplitterFits(lib) && longest >= DEFAULT_MAX_CONTENT_LENGTH
    requires forall s | s in sections && |s.title| >= DEFAULT_MAX_CONTENT_LENGTH - 2 :: |s.content| <= longest
    requires j < |Refine(sections, lib)|
    ensures |Refine(sections, lib)[j].content| <= longest + 501
  {
    SplitAllFits(sections, lib, longest);
    RefinedLength(sections, lib, longest, j);
  }

  // ------------------------------------------------------------- the methods

  /** One step of the merging loop. */
  lemma MergeFromTake(done: seq<Section>, current: Section, values: seq<Section>, i: nat, isSpace: char -> bool)
    requires i < |values|
    ensures done + MergeFrom(current, values[i..], isSpace)
         == if Mergeable(current, values[i]) then done + MergeFrom(Joined(current, values[i], isSpace), values[i + 1..], isSpace)
            else (done + [current]) + MergeFrom(values[i], values[i + 1..], isSpace)
  {
    assert values[i..][1..] == values[i + 1..];
    Associate(done, [current], MergeFrom(values[i], values[i + 1..], isSpace));
  }

  method MergeShortSections(sections: seq<Section>, isSpace: char -> bool) returns (merged: seq<Section>)
    ensures merged == Merge(sections, isSpace)
  {
    merged := [];
    if sections == [] {
      return;
    }
    var current := sections[0];
    for i := 1 to |sections|
      invariant merged + MergeFrom(current, sections[i..], isSpace) == Merge(sections, isSpace)
    {
      var sec := sections[i];
      MergeFromTake(merged, current, sections, i, isSpace);
      if |current.content| < MIN_CONTENT_LENGTH && current.parentTitle == sec.parentTitle {
        current := current.(content := current.content + ("\n\n" + Body(sec, isSpace)));
        if sec.part.Some? {
          current := current.(part := sec.part);
        }
      } else {
        merged := merged + [current];
        current := sec;
      }
    }
    merged := merged + [current];
  }

  lemma SubsectionsNext(s: Section, pieces: seq<string>, i: nat, text: string, lib: Library)
    requires i < |pieces| && text == Strip(pieces[i], lib.isSpace)
    ensures Subsections(s, pieces, i + 1, lib)
         == Subsections(s, pieces, i, lib) + if text == "" then [] else [Subsection(s, text, i + 1, lib)]
  {
  }

  /** The loop over the pieces. */
  method FromPieces(section: Section, pieces: seq<string>, lib: Library) returns (parts: seq<Section>)
    ensures parts == Subsections(section, pieces, |pieces|, lib)
  {
    parts := [];
    for i := 0 to |pieces|
      invariant parts == Subsections(section, pieces, i, lib)
    {
      var text := Strip(pieces[i], lib.isSpace);
      SubsectionsNext(section, pieces, i, text, lib);
      if text != "" {
        parts := parts + [Subsection(section, text, i + 1, lib)];
      }
    }
  }

  method SplitLongSection(section: Section, lib: Library) returns (parts: seq<Section>)
    ensures parts == SplitLong(section, lib)
  {
    var prefix := Prefix(section.title);
    if |section.content| <= DEFAULT_MAX_CONTENT_LENGTH || DEFAULT_MAX_CONTENT_LENGTH - |prefix| <= 0 {
      parts := [section];
    } else {
      parts := FromPieces(section, Pieces(section, lib), lib);
    }
  }

  /** The last loop of step 4. */
  method FillParentTitles(merged: seq<Section>) returns (chunks: seq<Section>)
    ensures chunks == FillAll(merged)
  {
    chunks := [];
    for i := 0 to |merged|
      invariant |chunks| == i && forall j | 0 <= j < i :: chunks[j] == Filled(merged[j])
    {
      var chunk := merged[i];
      if chunk.parentTitle.None? || chunk.parentTitle.value == "" {
        chunk := chunk.(parentTitle := Some(chunk.title));
      }
      chunks := chunks + [chunk];
    }
  }

  lemma SplitAllNext(sections: seq<Section>, i: nat, lib: Library)
    requires i < |sections|
    ensures SplitAll(sections[..i + 1], lib) == SplitAll(sections[..i], lib) + SplitLong(sections[i], lib)
  {
    assert sections[..i + 1][..i] == sections[..i];
  }

  method RefineChunks(sections: seq<Section>, lib: Library) returns (chunks: seq<Section>)
    ensures chunks == Refine(sections, lib)
  {
    var refined := [];
    for i := 0 to |sections|
      invariant refined == SplitAll(sections[..i], lib)
    {
      SplitAllNext(sections, i, lib);
      var parts := SplitLongSection(sections[i], lib);
      refined := refined + parts;
    }
    assert sections[..|sections|] == sections;
    var merged := MergeShortSections(refined, lib.isSpace);
    chunks := FillParentTitles(merged);
  }
}
