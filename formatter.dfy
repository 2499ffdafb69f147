/** `formatCode`, the best-effort reindenter applied to a file before it is downloaded.
    Every line is trimmed and re-indented by a bracket-depth counter; the counter moves by
    the language rules below, and blank lines come out empty. */
module Formatter {
  import opened Text

  /** Spaces per indentation level: 4 for Python, 2 for every other tag. */
  function IndentSize(language: string): nat {
    if language == "python3" then 4 else 2
  }

  /** The trimmed line starts with `}`, `]` or `)`. */
  predicate ClosesBlock(t: string) {
    |t| > 0 && t[0] in "}])"
  }

  /** The trimmed line ends with `{`, `[` or `(`. */
  predicate OpensBlock(t: string) {
    |t| > 0 && t[|t| - 1] in "{[("
  }

  /** The trimmed line ends with `:`. */
  predicate EndsWithColon(t: string) {
    |t| > 0 && t[|t| - 1] == ':'
  }

  /** The trimmed line has a `{` and no `}`. */
  predicate HasUnclosedBrace(t: string) {
    '{' in t && '}' !in t
  }

  /** The level a non-blank trimmed line is printed at, given the counter before it:
      a closing bracket lowers the counter by one, never below zero. */
  function EmitLevel(t: string, level: nat): nat {
    if ClosesBlock(t) then (if level == 0 then 0 else level - 1) else level
  }

  /** The counter after the generic bracket rules of a non-blank trimmed line. */
  function RaisedLevel(t: string, level: nat): nat {
    var emitted := EmitLevel(t, level);
    if OpensBlock(t) then emitted + 1 else emitted
  }

  /** The counter after a non-blank trimmed line. */
  function LevelAfterLine(t: string, language: string, level: nat): nat {
    var raised := RaisedLevel(t, level);
    if language == "python3" then
      (if EndsWithColon(t) then raised + 1 else raised)
    else if language == "java" || language == "cpp17" then
      (if HasUnclosedBrace(t) then raised + 1 else raised)
    else
      raised
  }

  /** The counter after the given lines, starting from zero; blank lines leave it alone. */
  function LevelAt(lines: seq<string>, language: string): nat {
    if |lines| == 0 then 0
    else
      var before := LevelAt(lines[..|lines| - 1], language);
      var t := Trim(lines[|lines| - 1]);
      if t == "" then before else LevelAfterLine(t, language, before)
  }

  /** One output line, given the counter before it. */
  function FormatLine(line: string, language: string, level: nat): string {
    var t := Trim(line);
    if t == "" then "" else Spaces(EmitLevel(t, level) * IndentSize(language)) + t
  }

  /** The output lines for the given input lines. */
  function FormatLines(lines: seq<string>, language: string): seq<string> {
    if |lines| == 0 then []
    else
      var prefix := lines[..|lines| - 1];
      FormatLines(prefix, language) + [FormatLine(lines[|lines| - 1], language, LevelAt(prefix, language))]
  }

  /** The level line `i` is printed at. */
  function IndentLevelAt(lines: seq<string>, i: nat, language: string): nat
    requires i < |lines|
  {
    EmitLevel(Trim(lines[i]), LevelAt(lines[..i], language))
  }

  /** What `formatCode(code, language)` returns. */
  function Formatted(code: string, language: string): string {
    if Trim(code) == "" then code else Join(FormatLines(Split(code), language))
  }

  /** `formatCode`: one pass over the lines with a counter that never goes negative. */
  method FormatCode(code: string, language: string) returns (r: string)
    ensures r == Formatted(code, language)
  {
    if Trim(code) == "" {
      return code;
    }
    var lines := Split(code);
    var indentLevel: int := 0;
    var indentSize: nat := if language == "python3" then 4 else 2;
    var formattedLines: seq<string> := [];
    for i := 0 to |lines|
      invariant indentLevel >= 0
      invariant indentLevel == LevelAt(lines[..i], language)
      invariant formattedLines == FormatLines(lines[..i], language)
    {
      FormatStep(lines, i, language);
      var trimmedLine := Trim(lines[i]);
      if trimmedLine == "" {
        formattedLines := formattedLines + [""];
        continue;
      }
      ghost var before: nat := indentLevel;
      if ClosesBlock(trimmedLine) {
        indentLevel := if indentLevel - 1 > 0 then indentLevel - 1 else 0;
      }
      assert indentLevel == EmitLevel(trimmedLine, before);
      var level: nat := indentLevel;
      // The width is a multiple of the indent size, which is 2 or 4.
      assert level * indentSize == if indentSize == 4 then level * 4 else level * 2;
      formattedLines := formattedLines + [Spaces(level * indentSize) + trimmedLine];
      assert formattedLines == FormatLines(lines[..i + 1], language);
      if OpensBlock(trimmedLine) {
        indentLevel := indentLevel + 1;
      }
      assert indentLevel == RaisedLevel(trimmedLine, before);
      if language == "python3" {
        if EndsWithColon(trimmedLine) {
          indentLevel := indentLevel + 1;
        }
      } else if language == "java" || language == "cpp17" {
        if HasUnclosedBrace(trimmedLine) {
          indentLevel := indentLevel + 1;
        }
      }
      assert indentLevel == LevelAfterLine(trimmedLine, language, before);
    }
    assert lines[..|lines|] == lines;
    r := Join(formattedLines);
  }

  /** One more line: the counter and the output grow by that line alone. */
  lemma FormatStep(lines: seq<string>, i: nat, language: string)
    requires i < |lines|
    ensures var t := Trim(lines[i]);
      LevelAt(lines[..i + 1], language) ==
        (if t == "" then LevelAt(lines[..i], language) else LevelAfterLine(t, language, LevelAt(lines[..i], language)))
    ensures FormatLines(lines[..i + 1], language) ==
      FormatLines(lines[..i], language) + [FormatLine(lines[i], language, LevelAt(lines[..i], language))]
  {
    assert lines[..i + 1][..i] == lines[..i];
  }

  /** There is one output line per input line. */
  lemma {:induction false} FormatLinesLength(lines: seq<string>, language: string)
    ensures |FormatLines(lines, language)| == |lines|
  {
    if |lines| > 0 {
      FormatLinesLength(lines[..|lines| - 1], language);
    }
  }

  /** Output line `i` is input line `i` trimmed and printed at its level. */
  lemma {:induction false} FormatLinesAt(lines: seq<string>, language: string, i: nat)
    requires i < |lines|
    ensures |FormatLines(lines, language)| == |lines|
    ensures FormatLines(lines, language)[i] == FormatLine(lines[i], language, LevelAt(lines[..i], language))
  {
    FormatLinesLength(lines, language);
    var n := |lines|;
    var prefix := lines[..n - 1];
    if i < n - 1 {
      FormatLinesLength(prefix, language);
      FormatLinesAt(prefix, language, i);
      assert prefix[..i] == lines[..i];
    }
  }

  /** No output line holds a line feed, so splitting the joined output gives the output
      lines back. */
  lemma SplitFormatted(code: string, language: string)
    requires Trim(code) != ""
    ensures Split(Formatted(code, language)) == FormatLines(Split(code), language)
  {
    var input := Split(code);
    var lines := FormatLines(input, language);
    FormatLinesLength(input, language);
    forall i | 0 <= i < |input|
      ensures '\n' !in lines[i]
    {
      FormatLinesAt(input, language, i);
    }
    SplitJoin(lines);
  }

  /** Output line `i` is blank for a blank input line and otherwise the trimmed line
      behind its level's indentation. */
  lemma OutputLine(lines: seq<string>, language: string, i: nat)
    requires i < |lines|
    ensures |FormatLines(lines, language)| == |lines|
    ensures FormatLines(lines, language)[i] ==
      if Trim(lines[i]) == "" then ""
      else Spaces(IndentLevelAt(lines, i, language) * IndentSize(language)) + Trim(lines[i])
  {
    FormatLinesAt(lines, language, i);
  }

  /** Whitespace-only input comes back unchanged; otherwise the output has one line per
      input line, a blank line becomes "", and every other line is its trimmed text behind
      a whole number of indentation steps. */
  lemma FormatShape(code: string, language: string)
    ensures Trim(code) == "" ==> Formatted(code, language) == code
    ensures Trim(code) != "" ==>
      var input := Split(code);
      var output := Split(Formatted(code, language));
      |output| == |input| &&
      forall i :: 0 <= i < |input| ==>
        output[i] == if Trim(input[i]) == "" then ""
                     else Spaces(IndentLevelAt(input, i, language) * IndentSize(language)) + Trim(input[i])
  {
    if Trim(code) != "" {
      var input := Split(code);
      var output := Split(Formatted(code, language));
      assert output == FormatLines(input, language) by {
        SplitFormatted(code, language);
      }
      assert |output| == |input| by {
        FormatLinesLength(input, language);
      }
      forall i | 0 <= i < |input|
        ensures output[i] == if Trim(input[i]) == "" then ""
                             else Spaces(IndentLevelAt(input, i, language) * IndentSize(language)) + Trim(input[i])
      {
        OutputLine(input, language, i);
      }
    }
  }

  /** The counter grows by at most two per line. */
  lemma {:induction false} LevelBound(lines: seq<string>, language: string)
    ensures LevelAt(lines, language) <= 2 * |lines|
  {
    if |lines| > 0 {
      LevelBound(lines[..|lines| - 1], language);
    }
  }

  /** Only the trimmed lines matter to the counter and to the output. */
  lemma {:induction false} SameTrimSameFormat(a: seq<string>, b: seq<string>, language: string)
    requires |a| == |b|
    requires forall i :: 0 <= i < |a| ==> Trim(a[i]) == Trim(b[i])
    ensures LevelAt(a, language) == LevelAt(b, language)
    ensures FormatLines(a, language) == FormatLines(b, language)
  {
    if |a| > 0 {
      SameTrimSameFormat(a[..|a| - 1], b[..|b| - 1], language);
    }
  }

  /** Formatting an already formatted text changes nothing. */
  lemma FormatIdempotent(code: string, language: string)
    ensures Formatted(Formatted(code, language), language) == Formatted(code, language)
  {
    if Trim(code) != "" {
      var input := Split(code);
      var lines := FormatLines(input, language);
      FormatLinesAt(input, language, 0);
      forall i | 0 <= i < |input|
        ensures '\n' !in lines[i]
        ensures Trim(lines[i]) == Trim(input[i])
      {
        FormatLinesAt(input, language, i);
        var t := Trim(input[i]);
        if t != "" {
          TrimAfterSpaces(IndentLevelAt(input, i, language) * IndentSize(language), t);
          TrimIdempotent(input[i]);
        }
      }
      SplitJoin(lines);
      var out := Join(lines);
      JoinSplit(code);
      JoinAllWhitespace(input);
      JoinAllWhitespace(lines);
      assert Trim(out) != "" by {
        var j :| 0 <= j < |input| && !AllWhitespace(input[j]);
        assert !AllWhitespace(lines[j]);
      }
      SameTrimSameFormat(lines, input, language);
    }
  }

  /** How one non-blank line moves the counter. A leading closing bracket takes one level
      off before the line is printed, never going below zero. A trailing opening bracket
      adds one level. A trailing `:` in Python adds one more. In Java and C++, a line
      with a `{` and no `}` adds one more, so a trailing `{` there adds two levels. */
  lemma CounterStep(t: string, language: string, level: nat)
    requires t != []
    ensures ClosesBlock(t) ==> EmitLevel(t, level) == if level > 0 then level - 1 else 0
    ensures !ClosesBlock(t) ==> EmitLevel(t, level) == level
    ensures LevelAfterLine(t, language, level) ==
      EmitLevel(t, level)
      + (if OpensBlock(t) then 1 else 0)
      + (if language == "python3" && t[|t| - 1] == ':' then 1 else 0)
      + (if (language == "java" || language == "cpp17") && '{' in t && '}' !in t then 1 else 0)
    ensures EmitLevel(t, level) <= LevelAfterLine(t, language, level) <= EmitLevel(t, level) + 2
    ensures language == "nodejs" ==>
      LevelAfterLine(t, language, level) == EmitLevel(t, level) + (if OpensBlock(t) then 1 else 0)
    ensures language == "python3" && t[|t| - 1] == ':' ==>
      LevelAfterLine(t, language, level) == EmitLevel(t, level) + 1
    ensures (language == "java" || language == "cpp17") && t[|t| - 1] == '{' && '}' !in t ==>
      LevelAfterLine(t, language, level) == EmitLevel(t, level) + 2
    ensures (language == "java" || language == "cpp17") && t[|t| - 1] == '}' ==>
      LevelAfterLine(t, language, level) == EmitLevel(t, level)
  {
  }
}
