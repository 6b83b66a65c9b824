/** From a whole document to its refined chunks. */
module DocumentConservation {
  import opened MarkdownText
  import opened HeadingSplit
  import opened ChunkRefinement
  import opened ChunkConservation

  lemma StrippedIsNotIndented(s: string, isSpace: char -> bool)
    ensures NotIndented(Strip(s, isSpace), isSpace)
  {
    LeftStripped(s, isSpace);
    RightStripped(LeftStrip(s, isSpace), isSpace);
  }

  lemma LineIsNotIndented(content: string, isSpace: char -> bool, i: nat)
    requires i < |Lines(content, isSpace)|
    ensures NotIndented(Lines(content, isSpace)[i].stripped, isSpace)
  {
    StrippedIsNotIndented(SplitLines(content)[i], isSpace);
  }

  lemma TitlesOfLines(lines: seq<Line>, starts: seq<nat>, sections: seq<Section>, fileTitle: string, isSpace: char -> bool)
    requires SplitsAt(lines, starts, sections, fileTitle)
    requires forall i | 0 <= i < |lines| :: NotIndented(lines[i].stripped, isSpace)
    ensures forall s | s in sections :: NotIndented(s.title, isSpace)
  {
  }

  /** Headings as the first cut takes them do not start with white space. */
  lemma TitlesAreNotIndented(content: string, fileTitle: string, isSpace: char -> bool)
    requires NotIndented(NO_TITLE, isSpace)
    ensures forall s | s in Split(content, fileTitle, isSpace) :: NotIndented(s.title, isSpace)
  {
    var starts := SplitIsExact(content, fileTitle, isSpace);
    var lines := Lines(content, isSpace);
    forall i | 0 <= i < |lines| {
      LineIsNotIndented(content, isSpace, i);
    }
    if exists i | 0 <= i < |lines| :: Opens(lines, i) {
      TitlesOfLines(lines, starts, Split(content, fileTitle, isSpace), fileTitle, isSpace);
    }
  }

  /** The refined chunks of a document share the texts of its sections, in order. */
  lemma RefinedDocumentKeepsText(content: string, fileTitle: string, lib: Library) returns (shares: seq<string>)
    requires lib.isSpace('\n') && NotIndented(NO_TITLE, lib.isSpace) && LosesOnlySpace(lib)
    ensures var sections := Split(content, fileTitle, lib.isSpace);
            AllShare(Refine(sections, lib), shares, SectionTexts(sections, lib), lib.isSpace)
  {
    TitlesAreNotIndented(content, fileTitle, lib.isSpace);
    shares := RefineKeepsText(Split(content, fileTitle, lib.isSpace), lib);
  }
}
