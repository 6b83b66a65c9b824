/** Text helpers of the Markdown splitter. The white-space class is a parameter. */
module MarkdownText {
  import opened Basics
  import opened Wrappers

  /** A section dictionary; absent keys are `None`. */
  datatype Section =
    Section(title: string, content: string, parentTitle: Option<string>, part: Option<nat>, fileTitle: string)

  function LeftStrip(s: string, isSpace: char -> bool): (r: string)
    ensures |r| <= |s|
  {
    if s == "" || !isSpace(s[0]) then s else LeftStrip(s[1..], isSpace)
  }

  function RightStrip(s: string, isSpace: char -> bool): (r: string)
    ensures |r| <= |s|
  {
    if s == "" || !isSpace(s[|s| - 1]) then s else RightStrip(s[..|s| - 1], isSpace)
  }

  /** What is left is a suffix that starts with no white space, and what is gone is white space. */
  lemma {:induction false} LeftStripped(s: string, isSpace: char -> bool)
    ensures var r := LeftStrip(s, isSpace);
            && r == s[|s| - |r|..] && (r != "" ==> !isSpace(r[0]))
            && forall i | 0 <= i < |s| - |r| :: isSpace(s[i])
  {
    if s != "" && isSpace(s[0]) {
      LeftStripped(s[1..], isSpace);
      var r := LeftStrip(s, isSpace);
      assert s[1..][|s| - 1 - |r|..] == s[|s| - |r|..];
      forall i | 0 < i < |s| - |r|
        ensures isSpace(s[i])
      {
        assert s[i] == s[1..][i - 1];
      }
    }
  }

  lemma {:induction false} RightStripped(s: string, isSpace: char -> bool)
    ensures var r := RightStrip(s, isSpace);
            && r == s[..|r|] && (r != "" ==> !isSpace(r[|r| - 1]))
            && forall i | |r| <= i < |s| :: isSpace(s[i])
  {
    if s != "" && isSpace(s[|s| - 1]) {
      RightStripped(s[..|s| - 1], isSpace);
      var r := RightStrip(s, isSpace);
      assert s[..|s| - 1][..|r|] == s[..|r|];
      forall i | |r| <= i < |s| - 1
        ensures isSpace(s[i])
      {
        assert s[i] == s[..|s| - 1][i];
      }
    }
  }

  function Strip(s: string, isSpace: char -> bool): (r: string)
    ensures |r| <= |s|
  {
    RightStrip(LeftStrip(s, isSpace), isSpace)
  }

  // ------------------------------------------------------------------ lines

  /** `s.split("\n")`: never empty. */
  function SplitLines(s: string): (lines: seq<string>)
    ensures |lines| >= 1
  {
    if s == "" then [""]
    else
      var rest := SplitLines(s[1..]);
      if s[0] == '\n' then [""] + rest else [[s[0]] + rest[0]] + rest[1..]
  }

  /** `"\n".join(lines)`. */
  function JoinLines(lines: seq<string>): string {
    Join(lines, "\n")
  }

  /** Lines hold no line break: together with `SplitThenJoin`, the text is cut at every one. */
  lemma {:induction false} LinesHoldNoBreak(s: string)
    ensures forall i | 0 <= i < |SplitLines(s)| :: '\n' !in SplitLines(s)[i]
  {
    if s != "" {
      LinesHoldNoBreak(s[1..]);
    }
  }

  lemma {:induction false} SplitThenJoin(s: string)
    ensures JoinLines(SplitLines(s)) == s
  {
    if s != "" {
      var rest := SplitLines(s[1..]);
      SplitThenJoin(s[1..]);
      if s[0] == '\n' {
        assert ([""] + rest)[1..] == rest;
        assert s == "\n" + s[1..];
      } else {
        var lines := [[s[0]] + rest[0]] + rest[1..];
        assert lines[1..] == rest[1..];
        assert s == [s[0]] + s[1..];
        if |rest| > 1 {
          assert [s[0]] + (rest[0] + "\n" + JoinLines(rest[1..])) == ([s[0]] + rest[0]) + "\n" + JoinLines(rest[1..]);
        }
      }
    }
  }

  lemma {:induction false} JoinOfTwo(a: seq<string>, b: seq<string>)
    requires a != [] && b != []
    ensures JoinLines(a + b) == JoinLines(a) + "\n" + JoinLines(b)
  {
    if |a| == 1 {
      assert (a + b)[1..] == b;
    } else {
      JoinOfTwo(a[1..], b);
      assert (a + b)[1..] == a[1..] + b;
      assert a[0] + "\n" + (JoinLines(a[1..]) + "\n" + JoinLines(b))
          == (a[0] + "\n" + JoinLines(a[1..])) + "\n" + JoinLines(b);
    }
  }

  function Flatten(groups: seq<seq<string>>): seq<string> {
    if groups == [] then [] else groups[0] + Flatten(groups[1..])
  }

  function JoinEach(groups: seq<seq<string>>): seq<string> {
    if groups == [] then [] else [JoinLines(groups[0])] + JoinEach(groups[1..])
  }

  lemma {:induction false} JoinOfGroups(groups: seq<seq<string>>)
    requires forall i | 0 <= i < |groups| :: groups[i] != []
    ensures JoinLines(JoinEach(groups)) == JoinLines(Flatten(groups))
    ensures groups != [] ==> Flatten(groups) != []
  {
    if |groups| == 1 {
      assert groups[0] + [] == groups[0];
    } else if |groups| > 1 {
      JoinOfGroups(groups[1..]);
      JoinOfTwo(groups[0], Flatten(groups[1..]));
      assert JoinEach(groups)[1..] == JoinEach(groups[1..]);
    }
  }

  lemma {:induction false} FlattenOfTwo(a: seq<seq<string>>, b: seq<seq<string>>)
    ensures Flatten(a + b) == Flatten(a) + Flatten(b)
  {
    if a == [] {
      assert a + b == b;
    } else {
      FlattenOfTwo(a[1..], b);
      assert (a + b)[0] == a[0] && (a + b)[1..] == a[1..] + b;
      Associate(a[0], Flatten(a[1..]), Flatten(b));
    }
  }
}
