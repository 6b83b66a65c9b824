/** Short neighbouring chunks are merged; what the merge does to a list of chunks. */
module SectionMerge {
  import opened Basics
  import opened MarkdownText
  import opened Wrappers

  const MIN_CONTENT_LENGTH := 500

  // ------------------------------------------------------------- two chunks

  function ParentTitle(s: Section): string {
    if s.parentTitle.Some? then s.parentTitle.value else ""
  }

  /** The next chunk without a repeated parent title at its start. */
  function Body(next: Section, isSpace: char -> bool): string {
    var parent := ParentTitle(next);
    if parent != "" && StartsWith(next.content, parent) then LeftStrip(next.content[|parent|..], isSpace)
    else next.content
  }

  /** Absent parent titles compare as equal. */
  predicate Mergeable(current: Section, next: Section) {
    |current.content| < MIN_CONTENT_LENGTH && current.parentTitle == next.parentTitle
  }

  function Joined(current: Section, next: Section, isSpace: char -> bool): Section {
    current.(content := current.content + ("\n\n" + Body(next, isSpace)),
             part := if next.part.Some? then next.part else current.part)
  }

  /** What the body leaves out: nothing, or the parent title and the white space after it. */
  lemma BodyLosesOnlyTitle(next: Section, isSpace: char -> bool)
    ensures var body, n := Body(next, isSpace), |next.content| - |Body(next, isSpace)|;
            && n >= 0 && next.content[n..] == body
            && (n > 0 ==> ParentTitle(next) != "" && n >= |ParentTitle(next)|
                          && next.content[..|ParentTitle(next)|] == ParentTitle(next)
                          && forall i | |ParentTitle(next)| <= i < n :: isSpace(next.content[i]))
  {
    var parent := ParentTitle(next);
    if parent != "" && StartsWith(next.content, parent) {
      var rest := next.content[|parent|..];
      var k := |rest| - |LeftStrip(rest, isSpace)|;
      LeftStripped(rest, isSpace);
      assert forall i | 0 <= i < k :: isSpace(rest[i]) && rest[i] == next.content[|parent| + i];
      assert forall i | |parent| <= i < |parent| + k :: next.content[i] == rest[i - |parent|];
    }
  }

  // --------------------------------------------------------------- the merge

  function MergeFrom(current: Section, rest: seq<Section>, isSpace: char -> bool): (r: seq<Section>)
    ensures r != []
    decreases rest
  {
    if rest == [] then [current]
    else if Mergeable(current, rest[0]) then MergeFrom(Joined(current, rest[0], isSpace), rest[1..], isSpace)
    else [current] + MergeFrom(rest[0], rest[1..], isSpace)
  }

  function Merge(sections: seq<Section>, isSpace: char -> bool): seq<Section> {
    if sections == [] then [] else MergeFrom(sections[0], sections[1..], isSpace)
  }

  // ------------------------------------------------- what a good merge has to be

  /** A run folded into one chunk: the first one's titles, every content. */
  function Folded(run: seq<Section>, isSpace: char -> bool): Section
    requires run != []
  {
    if |run| == 1 then run[0] else Joined(Folded(run[..|run| - 1], isSpace), run[|run| - 1], isSpace)
  }

  function Bodies(run: seq<Section>, isSpace: char -> bool): string {
    if run == [] then "" else Bodies(run[..|run| - 1], isSpace) + ("\n\n" + Body(run[|run| - 1], isSpace))
  }

  function Concat(runs: seq<seq<Section>>): seq<Section> {
    if runs == [] then [] else runs[0] + Concat(runs[1..])
  }

  /** Within a run every proper prefix folds to a short chunk, and all chunks have the same parent. */
  ghost predicate IsRun(run: seq<Section>, isSpace: char -> bool) {
    && run != []
    && (forall i | 0 <= i < |run| :: run[i].parentTitle == run[0].parentTitle)
    && forall m | 1 <= m < |run| :: |Folded(run[..m], isSpace).content| < MIN_CONTENT_LENGTH
  }

  /** `result` folds consecutive runs of the input, and each run goes on for as long as it may. */
  ghost predicate FoldsRuns(sections: seq<Section>, runs: seq<seq<Section>>, result: seq<Section>, isSpace: char -> bool) {
    && Concat(runs) == sections && |runs| == |result|
    && (forall j | 0 <= j < |runs| :: IsRun(runs[j], isSpace) && result[j] == Folded(runs[j], isSpace))
    && forall j | 0 <= j < |runs| - 1 :: !Mergeable(result[j], runs[j + 1][0])
  }

  /** The runs the loop finds, grown in the same way. */
  ghost function RunsFrom(run: seq<Section>, rest: seq<Section>, isSpace: char -> bool): (r: seq<seq<Section>>)
    requires run != []
    ensures r != [] && |r[0]| >= 1 && r[0][0] == run[0]
    decreases rest
  {
    if rest == [] then [run]
    else if Mergeable(Folded(run, isSpace), rest[0]) then RunsFrom(run + [rest[0]], rest[1..], isSpace)
    else [run] + RunsFrom([rest[0]], rest[1..], isSpace)
  }

  lemma FoldedSnoc(run: seq<Section>, next: Section, isSpace: char -> bool)
    requires run != []
    ensures Folded(run + [next], isSpace) == Joined(Folded(run, isSpace), next, isSpace)
  {
    assert (run + [next])[..|run|] == run;
  }

  /** A folded run has its first chunk's titles and all the contents in order. */
  lemma {:induction false} FoldedContent(run: seq<Section>, isSpace: char -> bool)
    requires run != []
    ensures Folded(run, isSpace).title == run[0].title && Folded(run, isSpace).fileTitle == run[0].fileTitle
    ensures Folded(run, isSpace).parentTitle == run[0].parentTitle
    ensures Folded(run, isSpace).content == run[0].content + Bodies(run[1..], isSpace)
  {
    if |run| == 1 {
      assert run[1..] == [];
    } else {
      var n := |run| - 1;
      FoldedContent(run[..n], isSpace);
      BodiesSnoc(run, isSpace);
      Associate(run[0].content, Bodies(run[..n][1..], isSpace), "\n\n" + Body(run[n], isSpace));
    }
  }

  /** The part number is that of the last chunk that has one. */
  lemma {:induction false} FoldedPart(run: seq<Section>, isSpace: char -> bool)
    requires run != []
    ensures IsLastPart(run, Folded(run, isSpace).part)
  {
    if |run| > 1 {
      var n := |run| - 1;
      FoldedPart(run[..n], isSpace);
      if run[n].part.None? {
        LastPartStays(run, Folded(run[..n], isSpace).part);
      }
    }
  }

  ghost predicate IsLastPart(run: seq<Section>, part: Option<nat>) {
    if part.None? then forall i | 0 <= i < |run| :: run[i].part.None?
    else exists i | 0 <= i < |run| :: run[i].part == part && forall j | i < j < |run| :: run[j].part.None?
  }

  lemma LastPartStays(run: seq<Section>, part: Option<nat>)
    requires run != [] && run[|run| - 1].part.None? && IsLastPart(run[..|run| - 1], part)
    ensures IsLastPart(run, part)
  {
    var front := run[..|run| - 1];
    assert forall i | 0 <= i < |front| :: front[i] == run[i];
    if part.Some? {
      var i :| 0 <= i < |front| && front[i].part == part && forall j | i < j < |front| :: front[j].part.None?;
      assert run[i].part == part && forall j | i < j < |run| :: j == |front| || run[j] == front[j];
    }
  }

  lemma BodiesSnoc(run: seq<Section>, isSpace: char -> bool)
    requires |run| >= 2
    ensures Bodies(run[1..], isSpace)
         == Bodies(run[..|run| - 1][1..], isSpace) + ("\n\n" + Body(run[|run| - 1], isSpace))
  {
    assert run[1..][..|run| - 2] == run[..|run| - 1][1..];
  }

  lemma PrefixOfSnoc(run: seq<Section>, next: Section, m: nat)
    requires m <= |run|
    ensures (run + [next])[..m] == run[..m] && run[..|run|] == run
  {
  }

  lemma RunGrows(run: seq<Section>, next: Section, isSpace: char -> bool)
    requires IsRun(run, isSpace) && Mergeable(Folded(run, isSpace), next)
    ensures IsRun(run + [next], isSpace)
  {
    assert next.parentTitle == run[0].parentTitle by {
      FoldedContent(run, isSpace);
    }
    forall m | 1 <= m < |run| + 1
      ensures |Folded((run + [next])[..m], isSpace).content| < MIN_CONTENT_LENGTH
    {
      PrefixOfSnoc(run, next, m);
    }
  }

  lemma RunInFront(run: seq<Section>, rest: seq<Section>, runs: seq<seq<Section>>, result: seq<Section>, isSpace: char -> bool)
    requires IsRun(run, isSpace) && FoldsRuns(rest, runs, result, isSpace) && runs != [] && runs[0] != []
    requires !Mergeable(Folded(run, isSpace), runs[0][0])
    ensures FoldsRuns(run + rest, [run] + runs, [Folded(run, isSpace)] + result, isSpace)
  {
    assert ([run] + runs)[1..] == runs;
    var runs', result' := [run] + runs, [Folded(run, isSpace)] + result;
    forall j | 0 <= j < |runs'| - 1
      ensures !Mergeable(result'[j], runs'[j + 1][0])
    {
      if j > 0 {
        assert !Mergeable(result[j - 1], runs[j - 1 + 1][0]);
      }
    }
  }

  lemma LoneRun(run: seq<Section>, isSpace: char -> bool)
    requires IsRun(run, isSpace)
    ensures FoldsRuns(run, [run], [Folded(run, isSpace)], isSpace)
  {
    assert Concat([run]) == run + [] == run;
  }

  lemma MergeNext(run: seq<Section>, rest: seq<Section>, isSpace: char -> bool)
    requires run != [] && rest != [] && Mergeable(Folded(run, isSpace), rest[0])
    ensures RunsFrom(run, rest, isSpace) == RunsFrom(run + [rest[0]], rest[1..], isSpace)
    ensures MergeFrom(Folded(run, isSpace), rest, isSpace) == MergeFrom(Folded(run + [rest[0]], isSpace), rest[1..], isSpace)
  {
    FoldedSnoc(run, rest[0], isSpace);
  }

  lemma StartNext(run: seq<Section>, rest: seq<Section>, isSpace: char -> bool)
    requires run != [] && rest != [] && !Mergeable(Folded(run, isSpace), rest[0])
    ensures RunsFrom(run, rest, isSpace) == [run] + RunsFrom([rest[0]], rest[1..], isSpace)
    ensures MergeFrom(Folded(run, isSpace), rest, isSpace)
         == [Folded(run, isSpace)] + MergeFrom(Folded([rest[0]], isSpace), rest[1..], isSpace)
    ensures [rest[0]] + rest[1..] == rest && IsRun([rest[0]], isSpace)
  {
  }

  ghost predicate RestFolds(run: seq<Section>, rest: seq<Section>, isSpace: char -> bool)
    requires run != []
  {
    FoldsRuns(run + rest, RunsFrom(run, rest, isSpace), MergeFrom(Folded(run, isSpace), rest, isSpace), isSpace)
  }

  lemma MoveOne<T>(xs: seq<T>, ys: seq<T>)
    requires ys != []
    ensures (xs + [ys[0]]) + ys[1..] == xs + ys
  {
  }

  lemma GrownRunFolds(run: seq<Section>, rest: seq<Section>, isSpace: char -> bool)
    requires run != [] && rest != [] && Mergeable(Folded(run, isSpace), rest[0])
    requires RestFolds(run + [rest[0]], rest[1..], isSpace)
    ensures RestFolds(run, rest, isSpace)
  {
    MergeNext(run, rest, isSpace);
    MoveOne(run, rest);
  }

  lemma NextRunFolds(run: seq<Section>, rest: seq<Section>, isSpace: char -> bool)
    requires IsRun(run, isSpace) && rest != [] && !Mergeable(Folded(run, isSpace), rest[0])
    requires RestFolds([rest[0]], rest[1..], isSpace)
    ensures RestFolds(run, rest, isSpace)
  {
    StartNext(run, rest, isSpace);
    RunInFront(run, rest, RunsFrom([rest[0]], rest[1..], isSpace),
               MergeFrom(Folded([rest[0]], isSpace), rest[1..], isSpace), isSpace);
  }

  lemma {:induction false} MergeFromFolds(run: seq<Section>, rest: seq<Section>, isSpace: char -> bool)
    requires IsRun(run, isSpace)
    ensures RestFolds(run, rest, isSpace)
    decreases rest
  {
    if rest == [] {
      LoneRun(run, isSpace);
      assert run + rest == run;
    } else if Mergeable(Folded(run, isSpace), rest[0]) {
      RunGrows(run, rest[0], isSpace);
      MergeFromFolds(run + [rest[0]], rest[1..], isSpace);
      GrownRunFolds(run, rest, isSpace);
    } else {
      StartNext(run, rest, isSpace);
      MergeFromFolds([rest[0]], rest[1..], isSpace);
      NextRunFolds(run, rest, isSpace);
    }
  }

  /** The merge folds consecutive, maximal runs of equal parent that partition the input. */
  lemma MergeFoldsRuns(sections: seq<Section>, isSpace: char -> bool) returns (runs: seq<seq<Section>>)
    ensures FoldsRuns(sections, runs, Merge(sections, isSpace), isSpace)
  {
    if sections == [] {
      runs := [];
    } else {
      runs := RunsFrom([sections[0]], sections[1..], isSpace);
      MergeFromFolds([sections[0]], sections[1..], isSpace);
      assert [sections[0]] + sections[1..] == sections;
      assert Folded([sections[0]], isSpace) == sections[0];
    }
  }

  // ------------------------------------------------------------ consequences

  lemma {:induction false} RunsComeFromInput(runs: seq<seq<Section>>, j: nat, i: nat)
    requires j < |runs| && i < |runs[j]|
    ensures runs[j][i] in Concat(runs)
  {
    if j > 0 {
      RunsComeFromInput(runs[1..], j - 1, i);
    }
  }

  /** No chunk is longer than the longest input plus 501. */
  lemma MergedLength(sections: seq<Section>, isSpace: char -> bool, longest: nat, j: nat)
    requires forall s | s in sections :: |s.content| <= longest
    requires j < |Merge(sections, isSpace)|
    ensures |Merge(sections, isSpace)[j].content| <= longest + 501
    ensures |Merge(sections, isSpace)[j].content| > longest ==> |sections| > |Merge(sections, isSpace)|
  {
    var runs := MergeFoldsRuns(sections, isSpace);
    var run := runs[j];
    RunsComeFromInput(runs, j, |run| - 1);
    if |run| > 1 {
      BodyLosesOnlyTitle(run[|run| - 1], isSpace);
      ConcatLength(runs, j);
    }
  }

  lemma {:induction false} ConcatLength(runs: seq<seq<Section>>, j: nat)
    requires j < |runs| && forall i | 0 <= i < |runs| :: runs[i] != []
    ensures |Concat(runs)| >= |runs| - 1 + |runs[j]|
  {
    if |runs| > 1 {
      ConcatLength(runs[1..], if j > 0 then j - 1 else 0);
    }
  }

  ghost predicate Settled(sections: seq<Section>) {
    forall j | 0 <= j < |sections| - 1 :: !Mergeable(sections[j], sections[j + 1])
  }

  /** No neighbouring pair of the result could still be merged. */
  lemma MergedIsSettled(sections: seq<Section>, isSpace: char -> bool)
    ensures Settled(Merge(sections, isSpace))
  {
    var runs := MergeFoldsRuns(sections, isSpace);
    var result := Merge(sections, isSpace);
    forall j | 0 <= j < |result| - 1
      ensures !Mergeable(result[j], result[j + 1])
    {
      FoldedContent(runs[j + 1], isSpace);
    }
  }

  lemma {:induction false} SettledIsUnchanged(current: Section, rest: seq<Section>, isSpace: char -> bool)
    requires Settled([current] + rest)
    ensures MergeFrom(current, rest, isSpace) == [current] + rest
    decreases rest
  {
    if rest != [] {
      var all := [current] + rest;
      assert !Mergeable(all[0], all[1]);
      assert all[1..] == [rest[0]] + rest[1..];
      assert Settled(all[1..]) by {
        forall j | 0 <= j < |all[1..]| - 1
          ensures !Mergeable(all[1..][j], all[1..][j + 1])
        {
          assert !Mergeable(all[j + 1], all[j + 2]);
        }
      }
      SettledIsUnchanged(rest[0], rest[1..], isSpace);
    }
  }

  /** A list is a fixed point of the merge exactly when it is settled; so merging twice is merging once. */
  lemma MergeIsIdempotent(sections: seq<Section>, isSpace: char -> bool)
    ensures Merge(sections, isSpace) == sections <==> Settled(sections)
    ensures Merge(Merge(sections, isSpace), isSpace) == Merge(sections, isSpace)
  {
    MergedIsSettled(sections, isSpace);
    var once := Merge(sections, isSpace);
    if once != [] {
      assert once == [once[0]] + once[1..];
      SettledIsUnchanged(once[0], once[1..], isSpace);
    }
    if sections != [] && Settled(sections) {
      assert sections == [sections[0]] + sections[1..];
      SettledIsUnchanged(sections[0], sections[1..], isSpace);
    }
  }

  /** The contents one after the other, a blank line between them. */
  function Texts(sections: seq<Section>): string {
    if sections == [] then ""
    else if |sections| == 1 then sections[0].content
    else sections[0].content + ("\n\n" + Texts(sections[1..]))
  }

  lemma TextsOfJoined(current: Section, next: Section, rest: seq<Section>, isSpace: char -> bool)
    requires next.parentTitle == None
    ensures Texts([Joined(current, next, isSpace)] + rest) == Texts([current] + ([next] + rest))
  {
    assert ([Joined(current, next, isSpace)] + rest)[1..] == rest;
    assert ([current] + ([next] + rest))[1..] == [next] + rest && ([next] + rest)[1..] == rest;
    Associate(current.content, "\n\n" + next.content, "\n\n" + Texts(rest));
    Associate("\n\n", next.content, "\n\n" + Texts(rest));
  }

  lemma {:induction false} MergeKeepsTexts(current: Section, rest: seq<Section>, isSpace: char -> bool)
    requires forall s | s in rest :: s.parentTitle == None
    ensures Texts(MergeFrom(current, rest, isSpace)) == Texts([current] + rest)
    decreases rest
  {
    if rest == [] {
      assert [current] + rest == [current];
    } else {
      assert [rest[0]] + rest[1..] == rest;
      if Mergeable(current, rest[0]) {
        MergeKeepsTexts(Joined(current, rest[0], isSpace), rest[1..], isSpace);
        TextsOfJoined(current, rest[0], rest[1..], isSpace);
      } else {
        MergeKeepsTexts(rest[0], rest[1..], isSpace);
        assert ([current] + rest)[1..] == rest;
        assert ([current] + MergeFrom(rest[0], rest[1..], isSpace))[1..] == MergeFrom(rest[0], rest[1..], isSpace);
      }
    }
  }

  /** Sections that were never split carry no parent title, so their headings do not keep them apart: a list of
      them is left as it is exactly when all but the last are long enough, and otherwise texts under different
      headings end up in one chunk. */
  lemma UnsplitSectionsIgnoreHeadings(sections: seq<Section>, isSpace: char -> bool)
    requires forall s | s in sections :: s.parentTitle == None
    ensures Merge(sections, isSpace) == sections
       <==> forall i | 0 <= i < |sections| - 1 :: |sections[i].content| >= MIN_CONTENT_LENGTH
    ensures Texts(Merge(sections, isSpace)) == Texts(sections)
  {
    MergeIsIdempotent(sections, isSpace);
    forall i | 0 <= i < |sections| - 1
      ensures sections[i].parentTitle == sections[i + 1].parentTitle
    {
      assert sections[i] in sections && sections[i + 1] in sections;
    }
    if Settled(sections) {
      forall i | 0 <= i < |sections| - 1
        ensures |sections[i].content| >= MIN_CONTENT_LENGTH
      {
        assert !Mergeable(sections[i], sections[i + 1]);
      }
    }
    if sections != [] {
      MergeKeepsTexts(sections[0], sections[1..], isSpace);
      assert [sections[0]] + sections[1..] == sections;
    }
  }
}
