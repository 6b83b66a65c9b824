/** Escaping of values in Milvus filter expressions. */
module FilterText {
  import opened Basics

  // ------------------------------------------------------------- escaping

  /** `s.replace(c, with)` for a one-character pattern. */
  function Replace(s: string, c: char, with: string): string {
    if s == "" then ""
    else (if s[0] == c then with else [s[0]]) + Replace(s[1..], c, with)
  }

  /** The six chained replacements, in the order the code applies them. */
  function EscapeChain(s: string): string {
    var quoted := Replace(Replace(Replace(s, '\\', "\\\\"), '\"', "\\\""), '\'', "\\'");
    Replace(Replace(Replace(quoted, '\r', " "), '\n', " "), '\t', " ")
  }

  function EscapeChar(c: char): string {
    if c == '\\' then "\\\\"
    else if c == '\"' then "\\\""
    else if c == '\'' then "\\'"
    else [Flat(c)]
  }

  /** Line breaks and tabs become spaces; nothing else about a value changes. */
  function Flat(c: char): char {
    if c == '\r' || c == '\n' || c == '\t' then ' ' else c
  }

  function Flatten(s: string): (r: string)
    ensures |r| == |s|
  {
    if s == "" then "" else [Flat(s[0])] + Flatten(s[1..])
  }

  function Escape(s: string): string {
    if s == "" then "" else EscapeChar(s[0]) + Escape(s[1..])
  }

  lemma {:induction false} ReplaceConcat(a: string, b: string, c: char, with: string)
    ensures Replace(a + b, c, with) == Replace(a, c, with) + Replace(b, c, with)
  {
    if a == "" {
      assert a + b == b;
    } else {
      ReplaceConcat(a[1..], b, c, with);
      assert (a + b)[1..] == a[1..] + b;
      Associate(if a[0] == c then with else [a[0]], Replace(a[1..], c, with), Replace(b, c, with));
    }
  }

  lemma EscapeChainConcat(a: string, b: string)
    ensures EscapeChain(a + b) == EscapeChain(a) + EscapeChain(b)
  {
    ReplaceConcat(a, b, '\\', "\\\\");
    var a1, b1 := Replace(a, '\\', "\\\\"), Replace(b, '\\', "\\\\");
    ReplaceConcat(a1, b1, '\"', "\\\"");
    var a2, b2 := Replace(a1, '\"', "\\\""), Replace(b1, '\"', "\\\"");
    ReplaceConcat(a2, b2, '\'', "\\'");
    var a3, b3 := Replace(a2, '\'', "\\'"), Replace(b2, '\'', "\\'");
    ReplaceConcat(a3, b3, '\r', " ");
    var a4, b4 := Replace(a3, '\r', " "), Replace(b3, '\r', " ");
    ReplaceConcat(a4, b4, '\n', " ");
    ReplaceConcat(Replace(a4, '\n', " "), Replace(b4, '\n', " "), '\t', " ");
  }

  lemma ReplaceOne(c: char, d: char, with: string)
    ensures Replace([c], d, with) == if c == d then with else [c]
  {
  }

  lemma ReplaceTwo(b: char, c: char, d: char, with: string)
    ensures Replace([b, c], d, with) == (if b == d then with else [b]) + (if c == d then with else [c])
  {
    assert [b, c][1..] == [c];
    ReplaceOne(c, d, with);
  }

  lemma EscapeChainOne(c: char)
    ensures EscapeChain([c]) == EscapeChar(c)
  {
    ReplaceOne(c, '\\', "\\\\");
    if c == '\\' || c == '\"' || c == '\'' {
      ReplaceTwo('\\', c, '\"', "\\\"");
      ReplaceTwo('\\', c, '\'', "\\'");
      ReplaceTwo('\\', c, '\r', " ");
      ReplaceTwo('\\', c, '\n', " ");
      ReplaceTwo('\\', c, '\t', " ");
      ReplaceOne(c, '\"', "\\\"");
      ReplaceOne(c, '\'', "\\'");
    }
  }

  /** The chained replacements do exactly one rewriting per character:
      no replacement disturbs what an earlier one inserted. */
  lemma {:induction false} ChainIsPerCharacter(s: string)
    ensures EscapeChain(s) == Escape(s)
  {
    if s != "" {
      ChainIsPerCharacter(s[1..]);
      EscapeChainOne(s[0]);
      EscapeChainConcat([s[0]], s[1..]);
      assert s == [s[0]] + s[1..];
    }
  }
}
