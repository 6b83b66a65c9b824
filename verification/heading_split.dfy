/** The first cut of a Markdown document: one section per heading outside code fences. */
module HeadingSplit {
  import opened Basics
  import opened MarkdownText
  import opened Wrappers

  const NO_TITLE := "无标题"

  // --------------------------------------------------------------- one line

  /** The stripped line opens or closes a code block. */
  predicate IsFence(line: string, isSpace: char -> bool) {
    StartsWith(Strip(line, isSpace), "```") || StartsWith(Strip(line, isSpace), "~~~")
  }

  function Hashes(s: string): (n: nat)
    ensures n <= |s|
  {
    if s == "" || s[0] != '#' then 0 else 1 + Hashes(s[1..])
  }

  /** `\s*#{1,6}\s+.+` at the start of the line. */
  predicate LooksLikeHeading(line: string, isSpace: char -> bool) {
    var s := LeftStrip(line, isSpace);
    var n := Hashes(s);
    1 <= n <= 6 && |s| >= n + 2 && isSpace(s[n])
  }

  lemma {:induction false} SpacesAreStripped(line: string, a: nat, isSpace: char -> bool)
    requires a < |line| && !isSpace(line[a]) && forall i | 0 <= i < a :: isSpace(line[i])
    ensures LeftStrip(line, isSpace) == line[a..]
  {
    if a > 0 {
      SpacesAreStripped(line[1..], a - 1, isSpace);
    }
  }

  lemma {:induction false} HashesAre(s: string, n: nat)
    requires n <= |s| && (forall i | 0 <= i < n :: s[i] == '#') && (n < |s| ==> s[n] != '#')
    ensures Hashes(s) == n
  {
    if n > 0 {
      HashesAre(s[1..], n - 1);
    }
  }

  lemma {:induction false} HashesFirst(s: string)
    ensures forall i | 0 <= i < Hashes(s) :: s[i] == '#'
  {
    if s != "" && s[0] == '#' {
      HashesFirst(s[1..]);
      forall i | 0 < i < Hashes(s)
        ensures s[i] == '#'
      {
        assert s[i] == s[1..][i - 1];
      }
    }
  }

  /** The regular expression matches: `a` spaces, `n` hashes from one to six, `m` spaces or more, and something. */
  ghost predicate Matches(line: string, a: nat, n: nat, m: nat, isSpace: char -> bool) {
    && a + n + m < |line| && 1 <= n <= 6 && m >= 1
    && (forall i | 0 <= i < a :: isSpace(line[i]))
    && (forall i | a <= i < a + n :: line[i] == '#')
    && forall i | a + n <= i < a + n + m :: isSpace(line[i])
  }

  lemma MatchedLooksLikeHeading(line: string, a: nat, n: nat, m: nat, isSpace: char -> bool)
    requires !isSpace('#') && Matches(line, a, n, m, isSpace)
    ensures LooksLikeHeading(line, isSpace)
  {
    SpacesAreStripped(line, a, isSpace);
    var s := line[a..];
    assert s[n] == line[a + n] && forall i | 0 <= i < n :: s[i] == line[a + i];
    HashesAre(s, n);
  }

  /** Looking for a heading is matching the pattern. */
  lemma HeadingPatternIff(line: string, isSpace: char -> bool)
    requires !isSpace('#')
    ensures LooksLikeHeading(line, isSpace) <==> exists a: nat, n: nat, m: nat :: Matches(line, a, n, m, isSpace)
  {
    if LooksLikeHeading(line, isSpace) {
      var s := LeftStrip(line, isSpace);
      var a, n := |line| - |s|, Hashes(s);
      LeftStripped(line, isSpace);
      HashesFirst(s);
      assert forall i | a <= i < a + n :: line[i] == s[i - a];
      assert line[a + n] == s[n];
      assert Matches(line, a, n, 1, isSpace);
    }
    if a: nat, n: nat, m: nat :| Matches(line, a, n, m, isSpace) {
      MatchedLooksLikeHeading(line, a, n, m, isSpace);
    }
  }

  /** Behind white space the line goes on with three backticks or three tildes. */
  ghost predicate OpensFence(line: string, a: nat, isSpace: char -> bool) {
    && a + 3 <= |line| && (line[a..a + 3] == "```" || line[a..a + 3] == "~~~")
    && forall i | 0 <= i < a :: isSpace(line[i])
  }

  lemma FenceStarts(line: string, a: nat, isSpace: char -> bool)
    requires !isSpace('`') && !isSpace('~') && OpensFence(line, a, isSpace)
    ensures IsFence(line, isSpace)
  {
    assert line[a] == line[a..a + 3][0] && line[a + 2] == line[a..a + 3][2];
    SpacesAreStripped(line, a, isSpace);
    var left, text := LeftStrip(line, isSpace), Strip(line, isSpace);
    RightStripped(left, isSpace);
    assert left[2] == line[a + 2] && !isSpace(left[2]);
    assert |text| >= 3 && text[..3] == left[..3] == line[a..a + 3];
  }

  lemma FenceIff(line: string, isSpace: char -> bool)
    requires !isSpace('`') && !isSpace('~')
    ensures IsFence(line, isSpace) <==> exists a: nat :: OpensFence(line, a, isSpace)
  {
    if IsFence(line, isSpace) {
      var left, text := LeftStrip(line, isSpace), Strip(line, isSpace);
      var a := |line| - |left|;
      LeftStripped(line, isSpace);
      RightStripped(left, isSpace);
      assert line[a..a + 3] == left[..3] == text[..3];
      assert OpensFence(line, a, isSpace);
    }
    if a: nat :| OpensFence(line, a, isSpace) {
      FenceStarts(line, a, isSpace);
    }
  }

  /** What the loop looks at in a line. */
  datatype Line = Line(text: string, stripped: string, fence: bool, headingLike: bool)

  function Classify(text: string, isSpace: char -> bool): Line {
    Line(text, Strip(text, isSpace), IsFence(text, isSpace), LooksLikeHeading(text, isSpace))
  }

  function Lines(content: string, isSpace: char -> bool): (lines: seq<Line>)
    ensures |lines| == |SplitLines(content)| >= 1
  {
    seq(|SplitLines(content)|, i requires 0 <= i < |SplitLines(content)| => Classify(SplitLines(content)[i], isSpace))
  }

  /** The fences met so far leave a code block open. */
  predicate InCode(lines: seq<Line>, n: nat)
    requires n <= |lines|
  {
    n > 0 && (InCode(lines, n - 1) != lines[n - 1].fence)
  }

  /** Line `i` is a recognised heading: outside code blocks, and no fence itself. */
  predicate HeadingAt(lines: seq<Line>, i: nat)
    requires i < |lines|
  {
    !lines[i].fence && !InCode(lines, i) && lines[i].headingLike
  }

  /** The lines with their recognised headings stripped, everything else untouched. */
  function Normal(lines: seq<Line>): (r: seq<string>)
    ensures |r| == |lines|
  {
    seq(|lines|, i requires 0 <= i < |lines| => if HeadingAt(lines, i) then lines[i].stripped else lines[i].text)
  }

  /** Which lines are recognised headings. */
  function Marks(lines: seq<Line>): (r: seq<bool>)
    ensures |r| == |lines|
  {
    seq(|lines|, i requires 0 <= i < |lines| => HeadingAt(lines, i))
  }

  // ------------------------------------------------ what a cut has to look like

  /** A document to the cutter: its lines after normalisation, and which of them are headings. */
  datatype Document = Document(lines: seq<string>, marks: seq<bool>)

  ghost predicate Sound(d: Document) {
    |d.lines| == |d.marks|
  }

  function Read(lines: seq<Line>): (d: Document)
    ensures Sound(d) && |d.lines| == |lines|
  {
    Document(Normal(lines), Marks(lines))
  }

  function Headings(marks: seq<bool>, n: nat): nat
    requires n <= |marks|
  {
    if n == 0 then 0 else Headings(marks, n - 1) + (if marks[n - 1] then 1 else 0)
  }

  /** Where section `j` starts, as a line number. */
  function Start(groups: seq<seq<string>>, j: nat): nat
    requires j <= |groups|
  {
    if j == 0 then 0 else Start(groups, j - 1) + |groups[j - 1]|
  }

  /** The lines `start` to `end` make one section: only its first line can be a heading, and must be
      unless the document starts there; a heading is the title of its section. */
  ghost predicate IsSection(d: Document, start: nat, end: nat, lines: seq<string>, title: string)
    requires Sound(d)
  {
    && start < end <= |d.lines|
    && lines == d.lines[start..end]
    && (start > 0 ==> d.marks[start])
    && title == (if d.marks[start] then d.lines[start] else "")
    && forall i | start < i < end :: !d.marks[i]
  }

  /** The first `n` lines are cut exactly at the recognised headings. */
  ghost predicate CutsAtHeadings(groups: seq<seq<string>>, titles: seq<string>, d: Document, n: nat)
    requires Sound(d)
  {
    && |titles| == |groups| && Start(groups, |groups|) == n
    && forall j | 0 <= j < |groups| :: IsSection(d, Start(groups, j), Start(groups, j + 1), groups[j], titles[j])
  }

  lemma {:induction false} StartOfPrefix(groups: seq<seq<string>>, more: seq<seq<string>>, j: nat)
    requires j <= |groups|
    ensures Start(groups + more, j) == Start(groups, j)
  {
    if j > 0 {
      StartOfPrefix(groups, more, j - 1);
    }
  }

  /** Cutting further leaves the earlier sections as they are. */
  lemma AppendSection(groups: seq<seq<string>>, titles: seq<string>, d: Document, n: nat, more: seq<string>, title: string)
    requires Sound(d) && CutsAtHeadings(groups, titles, d, n) && IsSection(d, n, n + |more|, more, title)
    ensures CutsAtHeadings(groups + [more], titles + [title], d, n + |more|)
  {
    forall j | 0 <= j <= |groups|
      ensures Start(groups + [more], j) == Start(groups, j)
    {
      StartOfPrefix(groups, [more], j);
    }
  }

  lemma DropSection(groups: seq<seq<string>>, titles: seq<string>, d: Document, n: nat, last: seq<string>, title: string)
    requires Sound(d) && |groups| == |titles| && CutsAtHeadings(groups + [last], titles + [title], d, n)
    ensures n >= |last| && CutsAtHeadings(groups, titles, d, n - |last|)
    ensures IsSection(d, n - |last|, n, last, title)
  {
    var groups', titles' := groups + [last], titles + [title];
    forall j | 0 <= j <= |groups|
      ensures Start(groups', j) == Start(groups, j)
    {
      StartOfPrefix(groups, [last], j);
    }
    assert IsSection(d, Start(groups', |groups|), Start(groups', |groups| + 1), groups'[|groups|], titles'[|groups|]);
    forall j | 0 <= j < |groups|
      ensures IsSection(d, Start(groups, j), Start(groups, j + 1), groups[j], titles[j])
    {
      assert IsSection(d, Start(groups', j), Start(groups', j + 1), groups'[j], titles'[j]);
    }
  }

  lemma DropLast(groups: seq<seq<string>>, titles: seq<string>, d: Document, n: nat)
    requires Sound(d) && CutsAtHeadings(groups, titles, d, n) && groups != []
    ensures var m := |groups| - 1;
            && n >= |groups[m]| && CutsAtHeadings(groups[..m], titles[..m], d, n - |groups[m]|)
            && IsSection(d, n - |groups[m]|, n, groups[m], titles[m])
  {
    var m := |groups| - 1;
    assert groups == groups[..m] + [groups[m]] && titles == titles[..m] + [titles[m]];
    DropSection(groups[..m], titles[..m], d, n, groups[m], titles[m]);
  }

  lemma GrowSection(d: Document, start: nat, n: nat, lines: seq<string>, title: string)
    requires Sound(d) && IsSection(d, start, n, lines, title) && n < |d.lines| && !d.marks[n]
    ensures IsSection(d, start, n + 1, lines + [d.lines[n]], title)
  {
    assert d.lines[start..n + 1] == d.lines[start..n] + [d.lines[n]];
  }

  // ------------------------------------------------------ what a cut amounts to

  /** Nothing but the trimming of recognised headings happens to the text. */
  lemma {:induction false} CutKeepsLines(groups: seq<seq<string>>, titles: seq<string>, d: Document, n: nat)
    requires Sound(d) && n <= |d.lines| && CutsAtHeadings(groups, titles, d, n)
    ensures Flatten(groups) == d.lines[..n]
  {
    if groups != [] {
      var m := |groups| - 1;
      DropLast(groups, titles, d, n);
      assert groups == groups[..m] + [groups[m]];
      CutKeepsLines(groups[..m], titles[..m], d, n - |groups[m]|);
      FlattenOfTwo(groups[..m], [groups[m]]);
      assert Flatten([groups[m]]) == groups[m] + [];
      assert d.lines[..n] == d.lines[..n - |groups[m]|] + d.lines[n - |groups[m]|..n];
    }
  }

  /** One section per heading, and one more exactly when the first line is no heading. */
  lemma {:induction false} CountSections(groups: seq<seq<string>>, titles: seq<string>, d: Document, n: nat)
    requires Sound(d) && 0 < n <= |d.lines| && CutsAtHeadings(groups, titles, d, n)
    ensures |groups| == Headings(d.marks, n) + (if d.marks[0] then 0 else 1)
  {
    var m := |groups| - 1;
    DropLast(groups, titles, d, n);
    var start := n - |groups[m]|;
    NoMoreHeadings(d.marks, start + 1, n);
    if start > 0 {
      CountSections(groups[..m], titles[..m], d, start);
    } else {
      SectionsAreNotEmpty(groups[..m], titles[..m], d, 0);
    }
  }

  /** Sections are not empty, so none end at line 0. */
  lemma SectionsAreNotEmpty(groups: seq<seq<string>>, titles: seq<string>, d: Document, n: nat)
    requires Sound(d) && CutsAtHeadings(groups, titles, d, n)
    ensures groups != [] ==> n > 0
    ensures forall j | 0 <= j < |groups| :: groups[j] != []
  {
    forall j | 0 <= j < |groups|
      ensures groups[j] != []
    {
      assert IsSection(d, Start(groups, j), Start(groups, j + 1), groups[j], titles[j]);
    }
  }

  lemma {:induction false} NoMoreHeadings(marks: seq<bool>, start: nat, end: nat)
    requires start <= end <= |marks| && forall i | start <= i < end :: !marks[i]
    ensures Headings(marks, end) == Headings(marks, start)
  {
    if start < end {
      NoMoreHeadings(marks, start, end - 1);
    }
  }

  // ------------------------------------------------------------- the methods

  /** `_flush_section`: an empty buffer is skipped. */
  function Flushed(sections: seq<Section>, title: string, lines: seq<string>, fileTitle: string): seq<Section> {
    if lines == [] then sections else sections + [Section(title, JoinLines(lines), None, None, fileTitle)]
  }

  /** The groups and titles written so far. */
  datatype Cut = Cut(groups: seq<seq<string>>, titles: seq<string>)

  /** The cut with the buffer of the open section written out. */
  function Closed(cut: Cut, lines: seq<string>, title: string): Cut {
    if lines == [] then cut else Cut(cut.groups + [lines], cut.titles + [title])
  }

  /** The sections closed so far, and the lines and title of the open one. */
  datatype Progress = Progress(cut: Cut, current: seq<string>, title: string)

  /** How far the first `n` lines get: a heading closes the open section and starts the next. */
  function CutUpTo(d: Document, n: nat): Progress
    requires n <= |d.lines| == |d.marks|
  {
    if n == 0 then Progress(Cut([], []), [], "")
    else
      var before, line := CutUpTo(d, n - 1), d.lines[n - 1];
      if d.marks[n - 1] then Progress(Closed(before.cut, before.current, before.title), [line], line)
      else before.(current := before.current + [line])
  }

  function CutAll(d: Document): Cut
    requires |d.lines| == |d.marks|
  {
    var p := CutUpTo(d, |d.lines|);
    Closed(p.cut, p.current, p.title)
  }

  /** The loop's state fits the first `n` lines; the buffer is empty only at the start. */
  ghost predicate Buffered(cut: Cut, lines: seq<string>, title: string, d: Document, n: nat)
    requires Sound(d)
  {
    && |cut.groups| == |cut.titles|
    && (lines == [] ==> n == 0 && cut == Cut([], []) && title == "")
    && CutsAtHeadings(Closed(cut, lines, title).groups, Closed(cut, lines, title).titles, d, n)
  }

  lemma HeadingLine(cut: Cut, lines: seq<string>, title: string, d: Document, n: nat)
    requires Sound(d) && Buffered(cut, lines, title, d, n) && n < |d.lines| && d.marks[n]
    ensures Buffered(Closed(cut, lines, title), [d.lines[n]], d.lines[n], d, n + 1)
  {
    var closed := Closed(cut, lines, title);
    assert d.lines[n..n + 1] == [d.lines[n]];
    AppendSection(closed.groups, closed.titles, d, n, [d.lines[n]], d.lines[n]);
  }

  lemma OtherLine(cut: Cut, lines: seq<string>, title: string, d: Document, n: nat)
    requires Sound(d) && Buffered(cut, lines, title, d, n) && n < |d.lines| && !d.marks[n]
    ensures Buffered(cut, lines + [d.lines[n]], title, d, n + 1)
  {
    var groups, titles := cut.groups, cut.titles;
    if lines == [] {
      assert d.lines[0..1] == [d.lines[0]];
      AppendSection(groups, titles, d, 0, [d.lines[0]], "");
      assert lines + [d.lines[0]] == [d.lines[0]];
    } else {
      DropSection(groups, titles, d, n, lines, title);
      GrowSection(d, n - |lines|, n, lines, title);
      AppendSection(groups, titles, d, n - |lines|, lines + [d.lines[n]], title);
    }
  }

  lemma {:induction false} CutUpToFits(d: Document, n: nat)
    requires Sound(d) && n <= |d.lines|
    ensures var p := CutUpTo(d, n); Buffered(p.cut, p.current, p.title, d, n)
  {
    if n > 0 {
      CutUpToFits(d, n - 1);
      var p := CutUpTo(d, n - 1);
      if d.marks[n - 1] {
        HeadingLine(p.cut, p.current, p.title, d, n - 1);
      } else {
        OtherLine(p.cut, p.current, p.title, d, n - 1);
      }
    }
  }

  /** The whole document is cut exactly at its headings. */
  lemma CutAllCutsAtHeadings(d: Document)
    requires Sound(d)
    ensures CutsAtHeadings(CutAll(d).groups, CutAll(d).titles, d, |d.lines|)
  {
    CutUpToFits(d, |d.lines|);
  }

  /** The sections a cut stands for. */
  function Sections(cut: Cut, fileTitle: string): seq<Section> {
    seq(Min(|cut.groups|, |cut.titles|), j requires 0 <= j < Min(|cut.groups|, |cut.titles|) =>
      Section(cut.titles[j], JoinLines(cut.groups[j]), None, None, fileTitle))
  }

  lemma {:induction false} CutIsPaired(d: Document, n: nat)
    requires n <= |d.lines| == |d.marks|
    ensures |CutUpTo(d, n).cut.groups| == |CutUpTo(d, n).cut.titles|
  {
    if n > 0 {
      CutIsPaired(d, n - 1);
    }
  }

  lemma FlushedSections(d: Document, n: nat, fileTitle: string)
    requires n <= |d.lines| == |d.marks|
    ensures Sections(Closed(CutUpTo(d, n).cut, CutUpTo(d, n).current, CutUpTo(d, n).title), fileTitle)
         == Flushed(Sections(CutUpTo(d, n).cut, fileTitle), CutUpTo(d, n).title, CutUpTo(d, n).current, fileTitle)
  {
    CutIsPaired(d, n);
  }

  /** What the loop of `SplitByTitles` keeps. */
  ghost predicate AtLine(sections: seq<Section>, current: seq<string>, title: string, count: nat,
                         d: Document, n: nat, fileTitle: string)
    requires Sound(d) && n <= |d.lines|
  {
    && count == Headings(d.marks, n)
    && CutUpTo(d, n).current == current && CutUpTo(d, n).title == title
    && Sections(CutUpTo(d, n).cut, fileTitle) == sections
  }

  lemma PlainLine(sections: seq<Section>, current: seq<string>, title: string, count: nat, d: Document, n: nat, fileTitle: string)
    requires Sound(d) && n < |d.lines| && AtLine(sections, current, title, count, d, n, fileTitle) && !d.marks[n]
    ensures AtLine(sections, current + [d.lines[n]], title, count, d, n + 1, fileTitle)
  {
  }

  lemma TitleLine(sections: seq<Section>, current: seq<string>, title: string, count: nat, d: Document, n: nat, fileTitle: string)
    requires Sound(d) && n < |d.lines| && AtLine(sections, current, title, count, d, n, fileTitle) && d.marks[n]
    ensures AtLine(Flushed(sections, title, current, fileTitle), [d.lines[n]], d.lines[n], count + 1, d, n + 1, fileTitle)
  {
    FlushedSections(d, n, fileTitle);
  }

  lemma LastFlush(sections: seq<Section>, current: seq<string>, title: string, count: nat, d: Document, fileTitle: string)
    requires Sound(d) && AtLine(sections, current, title, count, d, |d.lines|, fileTitle)
    ensures Flushed(sections, title, current, fileTitle) == Sections(CutAll(d), fileTitle)
    ensures count == Headings(d.marks, |d.lines|)
  {
    FlushedSections(d, |d.lines|, fileTitle);
  }

  /** The loop over the lines. */
  method CutLines(lines: seq<Line>, fileTitle: string) returns (sections: seq<Section>, titleCount: nat)
    ensures sections == Sections(CutAll(Read(lines)), fileTitle)
    ensures titleCount == Headings(Marks(lines), |lines|)
  {
    ghost var d := Read(lines);
    var currentTitle, currentLines, inCodeBlock := "", [], false;
    sections, titleCount := [], 0;
    for i := 0 to |lines|
      invariant inCodeBlock == InCode(lines, i)
      invariant AtLine(sections, currentLines, currentTitle, titleCount, d, i, fileTitle)
    {
      var line := lines[i];
      assert d.marks[i] == HeadingAt(lines, i);
      if line.fence {
        PlainLine(sections, currentLines, currentTitle, titleCount, d, i, fileTitle);
        inCodeBlock := !inCodeBlock;
        currentLines := currentLines + [line.text];
      } else if !inCodeBlock && line.headingLike {
        TitleLine(sections, currentLines, currentTitle, titleCount, d, i, fileTitle);
        sections := Flushed(sections, currentTitle, currentLines, fileTitle);
        currentTitle := line.stripped;
        currentLines := [currentTitle];
        titleCount := titleCount + 1;
      } else {
        PlainLine(sections, currentLines, currentTitle, titleCount, d, i, fileTitle);
        currentLines := currentLines + [line.text];
      }
    }
    LastFlush(sections, currentLines, currentTitle, titleCount, d, fileTitle);
    sections := Flushed(sections, currentTitle, currentLines, fileTitle);
  }

  method SplitByTitles(content: string, fileTitle: string, isSpace: char -> bool)
    returns (sections: seq<Section>, titleCount: nat, lineCount: nat)
    ensures lineCount == |SplitLines(content)|
    ensures sections == Sections(CutAll(Read(Lines(content, isSpace))), fileTitle)
    ensures titleCount == Headings(Marks(Lines(content, isSpace)), lineCount)
  {
    var lines := Lines(content, isSpace);
    sections, titleCount := CutLines(lines, fileTitle);
    lineCount := |lines|;
  }

  /** `_step_3_handle_no_title`. */
  function HandleNoTitle(content: string, sections: seq<Section>, titleCount: nat, fileTitle: string): seq<Section> {
    if titleCount == 0 then [Section(NO_TITLE, content, None, None, fileTitle)] else sections
  }

  function Contents(sections: seq<Section>): seq<string> {
    seq(|sections|, j requires 0 <= j < |sections| => sections[j].content)
  }

  lemma {:induction false} ContentsAreJoins(groups: seq<seq<string>>, titles: seq<string>, fileTitle: string)
    requires |groups| == |titles|
    ensures Contents(Sections(Cut(groups, titles), fileTitle)) == JoinEach(groups)
  {
    if groups != [] {
      ContentsAreJoins(groups[1..], titles[1..], fileTitle);
      assert Contents(Sections(Cut(groups, titles), fileTitle))
          == [JoinLines(groups[0])] + Contents(Sections(Cut(groups[1..], titles[1..]), fileTitle));
    }
  }

  lemma {:induction false} NoHeadings(marks: seq<bool>, n: nat, i: nat)
    requires i < n <= |marks| && Headings(marks, n) == 0
    ensures !marks[i]
  {
    if i < n - 1 {
      NoHeadings(marks, n - 1, i);
    }
  }

  lemma NoHeadingNoChange(lines: seq<Line>, texts: seq<string>)
    requires Headings(Marks(lines), |lines|) == 0
    requires |texts| == |lines| && forall i | 0 <= i < |lines| :: lines[i].text == texts[i]
    ensures Normal(lines) == texts
  {
    forall i | 0 <= i < |lines|
      ensures Normal(lines)[i] == texts[i]
    {
      NoHeadings(Marks(lines), |lines|, i);
      assert Marks(lines)[i] == HeadingAt(lines, i);
    }
  }

  /** Steps 2 and 3 on the lines of a document. */
  function Split(content: string, fileTitle: string, isSpace: char -> bool): seq<Section> {
    var lines := Lines(content, isSpace);
    HandleNoTitle(content, Sections(CutAll(Read(lines)), fileTitle), Headings(Marks(lines), |lines|), fileTitle)
  }

  lemma TextAt(content: string, i: nat, isSpace: char -> bool)
    requires i < |SplitLines(content)|
    ensures Lines(content, isSpace)[i].text == SplitLines(content)[i]
  {
  }

  lemma CutKeepsText(d: Document, fileTitle: string)
    requires Sound(d)
    ensures JoinLines(Contents(Sections(CutAll(d), fileTitle))) == JoinLines(d.lines)
  {
    var cut := CutAll(d);
    CutAllCutsAtHeadings(d);
    CutKeepsLines(cut.groups, cut.titles, d, |d.lines|);
    SectionsAreNotEmpty(cut.groups, cut.titles, d, |d.lines|);
    ContentsAreJoins(cut.groups, cut.titles, fileTitle);
    JoinOfGroups(cut.groups);
    assert d.lines[..|d.lines|] == d.lines;
  }

  lemma SplitOf(content: string, fileTitle: string, isSpace: char -> bool, lines: seq<Line>)
    requires lines == Lines(content, isSpace)
    ensures Headings(Marks(lines), |lines|) == 0 ==> Contents(Split(content, fileTitle, isSpace)) == [content]
    ensures Headings(Marks(lines), |lines|) != 0 ==>
      Split(content, fileTitle, isSpace) == Sections(CutAll(Read(lines)), fileTitle)
  {
  }

  /** Without a heading nothing is trimmed. */
  lemma UncutKeepsText(content: string, isSpace: char -> bool)
    requires var lines := Lines(content, isSpace); Headings(Marks(lines), |lines|) == 0
    ensures content == JoinLines(Normal(Lines(content, isSpace)))
  {
    var lines := Lines(content, isSpace);
    forall i | 0 <= i < |lines| {
      TextAt(content, i, isSpace);
    }
    NoHeadingNoChange(lines, SplitLines(content));
    SplitThenJoin(content);
  }

  /** The whole first cut: joining the sections gives the input with only its recognised headings trimmed. */
  lemma SplitKeepsText(content: string, fileTitle: string, isSpace: char -> bool)
    ensures JoinLines(Contents(Split(content, fileTitle, isSpace))) == JoinLines(Normal(Lines(content, isSpace)))
  {
    var lines := Lines(content, isSpace);
    SplitOf(content, fileTitle, isSpace, lines);
    if Headings(Marks(lines), |lines|) == 0 {
      UncutKeepsText(content, isSpace);
    } else {
      CutKeepsText(Read(lines), fileTitle);
    }
  }

  lemma CutCount(d: Document, fileTitle: string)
    requires Sound(d) && |d.lines| > 0
    ensures |Sections(CutAll(d), fileTitle)| == Headings(d.marks, |d.lines|) + (if d.marks[0] then 0 else 1)
  {
    CutAllCutsAtHeadings(d);
    CountSections(CutAll(d).groups, CutAll(d).titles, d, |d.lines|);
  }

  /** One section per heading, one more exactly when the first line is no heading, and one when there is none. */
  lemma SectionCount(content: string, fileTitle: string, isSpace: char -> bool)
    ensures var marks := Marks(Lines(content, isSpace));
            var count := Headings(marks, |marks|);
            |Split(content, fileTitle, isSpace)| == if count == 0 then 1 else if marks[0] then count else count + 1
  {
    CutCount(Read(Lines(content, isSpace)), fileTitle);
  }

  // ---------------------------------------------------------- where sections start

  /** The fence lines among the first `n` lines. */
  function FencesBefore(lines: seq<Line>, n: nat): nat
    requires n <= |lines|
  {
    if n == 0 then 0 else FencesBefore(lines, n - 1) + (if lines[n - 1].fence then 1 else 0)
  }

  /** A line that looks like a heading, is no fence, and stands after an even number of fences. */
  predicate Opens(lines: seq<Line>, i: nat)
    requires i < |lines|
  {
    lines[i].headingLike && !lines[i].fence && FencesBefore(lines, i) % 2 == 0
  }

  lemma {:induction false} InCodeIsOdd(lines: seq<Line>, n: nat)
    requires n <= |lines|
    ensures InCode(lines, n) <==> FencesBefore(lines, n) % 2 == 1
  {
    if n > 0 {
      InCodeIsOdd(lines, n - 1);
    }
  }

  lemma MarkIsOpening(lines: seq<Line>, i: nat)
    requires i < |lines|
    ensures Marks(lines)[i] <==> Opens(lines, i)
    ensures Normal(lines)[i] == if Opens(lines, i) then lines[i].stripped else lines[i].text
  {
    InCodeIsOdd(lines, i);
  }

  /** The lines from `start` to `end` with an opening heading at their head stripped. */
  function TextsFrom(lines: seq<Line>, start: nat, end: nat): seq<string>
    requires start < end <= |lines|
  {
    seq(end - start, k requires 0 <= k < end - start =>
      if k == 0 && Opens(lines, start) then lines[start].stripped else lines[start + k].text)
  }

  function SectionFrom(lines: seq<Line>, start: nat, end: nat, fileTitle: string): Section
    requires start < end <= |lines|
  {
    Section(if Opens(lines, start) then lines[start].stripped else "", JoinLines(TextsFrom(lines, start, end)), None, None, fileTitle)
  }

  function EndOf(starts: seq<nat>, j: nat, n: nat): nat
    requires j < |starts|
  {
    if j + 1 < |starts| then starts[j + 1] else n
  }

  /** One section per start, up to the next one; behind the first line, exactly the opening headings are starts. */
  ghost predicate SplitsAt(lines: seq<Line>, starts: seq<nat>, sections: seq<Section>, fileTitle: string) {
    && |sections| == |starts| >= 1 && starts[0] == 0
    && (forall i | 0 < i < |lines| :: i in starts <==> Opens(lines, i))
    && forall j | 0 <= j < |starts| ::
         starts[j] < EndOf(starts, j, |lines|) <= |lines|
         && sections[j] == SectionFrom(lines, starts[j], EndOf(starts, j, |lines|), fileTitle)
  }

  lemma {:induction false} Located(groups: seq<seq<string>>, n: nat, i: nat) returns (j: nat)
    requires n <= |groups| && i < Start(groups, n)
    ensures j < n && Start(groups, j) <= i < Start(groups, j + 1)
  {
    if i >= Start(groups, n - 1) {
      j := n - 1;
    } else {
      j := Located(groups, n - 1, i);
    }
  }

  lemma GroupIsTexts(lines: seq<Line>, start: nat, end: nat, group: seq<string>, title: string)
    requires IsSection(Read(lines), start, end, group, title)
    ensures start < end <= |lines| && group == TextsFrom(lines, start, end)
    ensures title == if Opens(lines, start) then lines[start].stripped else ""
  {
    var d := Read(lines);
    MarkIsOpening(lines, start);
    forall k | 0 <= k < end - start
      ensures group[k] == TextsFrom(lines, start, end)[k]
    {
      assert group[k] == Normal(lines)[start + k];
      MarkIsOpening(lines, start + k);
      assert k > 0 ==> !d.marks[start + k];
    }
  }

  function Starts(groups: seq<seq<string>>): (starts: seq<nat>)
    ensures |starts| == |groups|
  {
    seq(|groups|, j requires 0 <= j < |groups| => Start(groups, j))
  }

  lemma StartsAreOpenings(groups: seq<seq<string>>, titles: seq<string>, lines: seq<Line>, i: nat)
    requires CutsAtHeadings(groups, titles, Read(lines), |lines|) && 0 < i < |lines|
    ensures i in Starts(groups) <==> Opens(lines, i)
  {
    var d := Read(lines);
    MarkIsOpening(lines, i);
    var j := Located(groups, |groups|, i);
    assert IsSection(d, Start(groups, j), Start(groups, j + 1), groups[j], titles[j]);
    if i in Starts(groups) {
      var k :| 0 <= k < |groups| && Starts(groups)[k] == i;
      assert IsSection(d, Start(groups, k), Start(groups, k + 1), groups[k], titles[k]);
    }
    if Opens(lines, i) {
      assert d.marks[i];
      assert Starts(groups)[j] == i;
    }
  }

  lemma StartsRise(groups: seq<seq<string>>, titles: seq<string>, d: Document, j: nat)
    requires Sound(d) && CutsAtHeadings(groups, titles, d, |d.lines|) && j < |groups|
    ensures EndOf(Starts(groups), j, |d.lines|) == Start(groups, j + 1)
    ensures IsSection(d, Start(groups, j), Start(groups, j + 1), groups[j], titles[j])
  {
  }

  /** The cut is the one that the opening headings demand. */
  lemma CutIsExact(lines: seq<Line>, fileTitle: string) returns (starts: seq<nat>)
    requires |lines| > 0
    ensures SplitsAt(lines, starts, Sections(CutAll(Read(lines)), fileTitle), fileTitle)
  {
    var d := Read(lines);
    var cut := CutAll(d);
    CutAllCutsAtHeadings(d);
    starts := Starts(cut.groups);
    assert |cut.groups| >= 1;
    forall i | 0 < i < |lines| {
      StartsAreOpenings(cut.groups, cut.titles, lines, i);
    }
    forall j | 0 <= j < |starts|
      ensures starts[j] < EndOf(starts, j, |lines|) <= |lines|
      ensures Sections(cut, fileTitle)[j] == SectionFrom(lines, starts[j], EndOf(starts, j, |lines|), fileTitle)
    {
      StartsRise(cut.groups, cut.titles, d, j);
      GroupIsTexts(lines, Start(cut.groups, j), Start(cut.groups, j + 1), cut.groups[j], cut.titles[j]);
    }
  }

  lemma {:induction false} SomeHeadingOpens(lines: seq<Line>, n: nat)
    requires n <= |lines|
    ensures Headings(Marks(lines), n) > 0 <==> exists i | 0 <= i < n :: Opens(lines, i)
  {
    if n > 0 {
      SomeHeadingOpens(lines, n - 1);
      MarkIsOpening(lines, n - 1);
    }
  }

  /** The whole first cut, told by the lines alone: without an opening heading one untitled section holds the
      document as it is; otherwise sections start at the first line and exactly at the opening headings, so no
      line between a fence and the next one starts a section, and every heading after a closed block does. */
  lemma SplitIsExact(content: string, fileTitle: string, isSpace: char -> bool) returns (starts: seq<nat>)
    ensures var lines, sections := Lines(content, isSpace), Split(content, fileTitle, isSpace);
            if exists i | 0 <= i < |lines| :: Opens(lines, i) then SplitsAt(lines, starts, sections, fileTitle)
            else sections == [Section(NO_TITLE, content, None, None, fileTitle)]
  {
    var lines := Lines(content, isSpace);
    starts := CutIsExact(lines, fileTitle);
    SomeHeadingOpens(lines, |lines|);
    SplitOf(content, fileTitle, isSpace, lines);
  }

  method SplitDocument(content: string, fileTitle: string, isSpace: char -> bool) returns (sections: seq<Section>)
    ensures sections == Split(content, fileTitle, isSpace)
  {
    var titleCount, lineCount: nat;
    sections, titleCount, lineCount := SplitByTitles(content, fileTitle, isSpace);
    sections := HandleNoTitle(content, sections, titleCount, fileTitle);
  }
}
