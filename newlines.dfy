/** Splitting DevCon's output into lines with the pattern `\r\n|\n|\r` (Program.cs line 20). */
module NewLines {

  predicate IsLineBreak(c: char) {
    c == '\n' || c == '\r'
  }

  predicate HasNoLineBreak(s: string) {
    forall i :: 0 <= i < |s| ==> !IsLineBreak(s[i])
  }

  /** The three line separators, tried in this order at each position: `\r\n` is one separator. */
  predicate IsSeparator(sep: string) {
    sep == "\r\n" || sep == "\n" || sep == "\r"
  }

  /** `Regex.Split(s)` with `\r\n|\n|\r`: the pieces between consecutive separators, including an
      empty piece before a leading and after a trailing separator; a text without separators is
      a single piece. */
  function SplitLines(s: string): (lines: seq<string>)
    ensures |lines| >= 1
    ensures forall i :: 0 <= i < |lines| ==> HasNoLineBreak(lines[i])
    decreases |s|
  {
    if s == [] then [""]
    else if |s| >= 2 && s[0] == '\r' && s[1] == '\n' then [""] + SplitLines(s[2..])
    else if IsLineBreak(s[0]) then [""] + SplitLines(s[1..])
    else
      var rest := SplitLines(s[1..]);
      [[s[0]] + rest[0]] + rest[1..]
  }

  /** `lines` written out with `sep` between consecutive lines. */
  function Join(lines: seq<string>, sep: string): string
  {
    if lines == [] then ""
    else if |lines| == 1 then lines[0]
    else lines[0] + sep + Join(lines[1..], sep)
  }

  /** A text without separators is one line. */
  lemma {:induction false} SplitSingleLine(line: string)
    requires HasNoLineBreak(line)
    ensures SplitLines(line) == [line]
  {
    if line != [] {
      SplitSingleLine(line[1..]);
      assert [line[0]] + line[1..] == line;
    }
  }

  /** A line followed by a separator splits off as the first piece; after a bare `\r` the next line
      must not begin with `\n`, since `\r\n` would then be one separator. */
  lemma {:induction false} SplitFirstLine(line: string, sep: string, rest: string)
    requires HasNoLineBreak(line) && IsSeparator(sep)
    requires sep == "\r" ==> rest == [] || rest[0] != '\n'
    ensures SplitLines(line + sep + rest) == [line] + SplitLines(rest)
  {
    var s := line + sep + rest;
    if line == [] {
      assert s == sep + rest;
      if sep == "\r\n" {
        assert s[2..] == rest;
      } else {
        assert s[1..] == rest;
      }
    } else {
      assert s[1..] == line[1..] + sep + rest;
      SplitFirstLine(line[1..], sep, rest);
      assert [line[0]] + line[1..] == line;
    }
  }

  /** No text joined from a line and more text begins with `\n`, when neither a line nor the
      separator does. */
  lemma JoinStart(lines: seq<string>, sep: string)
    requires forall i :: 0 <= i < |lines| ==> HasNoLineBreak(lines[i])
    requires sep == "\r"
    ensures Join(lines, sep) == [] || Join(lines, sep)[0] != '\n'
  {
    if |lines| >= 2 && lines[0] == [] {
      assert Join(lines, sep) == sep + Join(lines[1..], sep);
    }
  }

  /** Splitting undoes joining with any of the three separators: the pieces come back exactly,
      however many of them are empty. */
  lemma {:induction false} SplitJoin(lines: seq<string>, sep: string)
    requires |lines| >= 1 && IsSeparator(sep)
    requires forall i :: 0 <= i < |lines| ==> HasNoLineBreak(lines[i])
    ensures SplitLines(Join(lines, sep)) == lines
  {
    if |lines| == 1 {
      SplitSingleLine(lines[0]);
    } else {
      var rest := Join(lines[1..], sep);
      if sep == "\r" {
        JoinStart(lines[1..], sep);
      }
      SplitFirstLine(lines[0], sep, rest);
      SplitJoin(lines[1..], sep);
      assert [lines[0]] + lines[1..] == lines;
    }
  }

  /** Every character of every piece comes from the text. */
  lemma {:induction false} SplitLinesChars(s: string)
    ensures forall i, j :: 0 <= i < |SplitLines(s)| && 0 <= j < |SplitLines(s)[i]| ==> SplitLines(s)[i][j] in s
    decreases |s|
  {
    if s == [] {
    } else if |s| >= 2 && s[0] == '\r' && s[1] == '\n' {
      SplitLinesChars(s[2..]);
    } else if IsLineBreak(s[0]) {
      SplitLinesChars(s[1..]);
    } else {
      SplitLinesChars(s[1..]);
    }
  }

  /** `\r\n` separates two lines, it does not produce an empty line between them. */
  lemma CrLfIsOneSeparator()
    ensures SplitLines("a\r\nb") == ["a", "b"]
  {
    SplitJoin(["a", "b"], "\r\n");
  }
}
