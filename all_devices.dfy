/** Parsing the output of `findall =<class>` (`ObtainAllDevicesWithRegisteredPorts`, Program.cs
    lines 17-18 and 87-96): group 1 of every match of `(.*?)\s*:.*` in the whole text.

    The functions below follow the pattern over the text itself. `.` matches any character but
    `\n`; `\s*` is greedy and does cross line breaks; the lazy group `(.*?)` is as short as it
    can be; matches are found left to right, each search starting where the last match ended.
    Every function works on the rest of the text from the current position on. */
module AllDevicesParser {
  import opened Collections
  import opened Text
  import opened NewLines
  import opened DevCon

  /** How many white-space characters `t` starts with: what the greedy `\s*` takes. */
  function LeadingWhiteSpace(t: string): (n: nat)
    ensures n <= |t|
    ensures forall i :: 0 <= i < n ==> IsWhiteSpace(t[i])
    ensures n < |t| ==> !IsWhiteSpace(t[n])
  {
    if t != [] && IsWhiteSpace(t[0]) then 1 + LeadingWhiteSpace(t[1..]) else 0
  }

  /** `\s*:` matches at the start of `t`. A `:` is not white space, so the greedy `\s*` never
      has to give back a character for the colon to match. */
  predicate ColonAfterWhiteSpace(t: string) {
    var n := LeadingWhiteSpace(t); n < |t| && t[n] == ':'
  }

  /** How many characters `.` takes at the start of `t`: all of them up to the first `\n`. */
  function LineLength(t: string): (n: nat)
    ensures n <= |t|
    ensures forall i :: 0 <= i < n ==> t[i] != '\n'
    ensures n < |t| ==> t[n] == '\n'
  {
    if t == [] || t[0] == '\n' then 0 else 1 + LineLength(t[1..])
  }

  /** Dropping the first character shifts every position by one. */
  lemma ShiftByOne(t: string, k: nat)
    requires 0 < |t| && k <= |t| - 1
    ensures t[1..][k..] == t[k + 1..]
    ensures forall i :: 0 < i <= k ==> t[i] == t[1..][i - 1]
  {
  }

  /** The length of the lazy group `(.*?)` of a match that starts at the start of `t`: the
      shortest run of characters other than `\n` after which `\s*:` matches, if there is one. */
  function LazyGroupLength(t: string): (k: Option<nat>)
    ensures k.Some? ==> k.value <= |t| && ColonAfterWhiteSpace(t[k.value..])
    ensures k.Some? ==> forall i :: 0 <= i < k.value ==> t[i] != '\n'
  {
    if ColonAfterWhiteSpace(t) then
      assert t[0..] == t;
      Some(0)
    else if t != [] && t[0] != '\n' then
      var r := LazyGroupLength(t[1..]);
      if r.Some? then
        ShiftByOne(t, r.value);
        Some(r.value + 1)
      else None
    else None
  }

  /** The length of a whole match `(.*?)\s*:.*` at the start of `t` whose group is `k` long: the
      group, the white space, the colon and the rest of that line. */
  function MatchLength(t: string, k: nat): (m: nat)
    requires k <= |t| && ColonAfterWhiteSpace(t[k..])
    ensures k < m <= |t|
  {
    var colon := k + LeadingWhiteSpace(t[k..]);
    colon + 1 + LineLength(t[colon + 1..])
  }

  /** `ALL_DEVICES_REGEX.Matches(output)`, taking group 1 of each match in order. */
  function AllDevices(output: string): (devices: seq<string>)
    decreases |output|
  {
    if output == [] then []
    else match LazyGroupLength(output)
      case None => AllDevices(output[1..])
      case Some(k) => [output[..k]] + AllDevices(output[MatchLength(output, k)..])
  }

  // ---------------------------------------------------------------------------------------------
  // Line by line

  /** What one line (without `\n`) contributes: the text before its first `:` without the white
      space just before that colon, or nothing when it has no `:`. */
  function LineDevice(line: string): (d: Option<string>)
    ensures d.Some? <==> ':' in line
    ensures d.Some? ==> |d.value| <= |line| && d.value == line[..|d.value|] && ':' !in d.value
  {
    if ':' in line then Some(TrimEnd(line[..FirstIndexOf(line, ':')])) else None
  }

  /** What one line contributes to the list: its device, if it has one. */
  function LineContribution(line: string): seq<string> {
    if LineDevice(line).Some? then [LineDevice(line).value] else []
  }

  /** The contributions of a sequence of lines, in order. */
  function LineDevices(lines: seq<string>): seq<string> {
    if lines == [] then [] else LineContribution(lines[0]) + LineDevices(lines[1..])
  }

  /** No line without a colon is followed by white space (across any number of lines) and then
      a colon; such a text is the only kind the pattern does not read line by line. */
  predicate NoCrossLineMatch(lines: seq<string>) {
    forall i :: 0 <= i < |lines| - 1 && ':' !in lines[i] ==> !ColonAfterWhiteSpace(Join(lines[i + 1..], "\n"))
  }

  lemma {:induction false} LeadingWhiteSpaceOfBlank(a: string, b: string)
    requires IsBlank(a)
    ensures LeadingWhiteSpace(a + b) == |a| + LeadingWhiteSpace(b)
  {
    if a == [] {
      assert a + b == b;
    } else {
      assert (a + b)[0] == a[0];
      assert (a + b)[1..] == a[1..] + b;
      LeadingWhiteSpaceOfBlank(a[1..], b);
    }
  }

  lemma {:induction false} LeadingWhiteSpaceOfNonBlank(a: string, b: string)
    requires !IsBlank(a)
    ensures LeadingWhiteSpace(a + b) == LeadingWhiteSpace(a) < |a|
  {
    assert (a + b)[0] == a[0];
    if IsWhiteSpace(a[0]) {
      assert (a + b)[1..] == a[1..] + b;
      LeadingWhiteSpaceOfNonBlank(a[1..], b);
    }
  }

  /** A group length counted from `n` characters further on. */
  function Shift(k: Option<nat>, n: nat): (r: Option<nat>)
    ensures r.Some? <==> k.Some?
    ensures r.Some? ==> r.value == k.value + n
  {
    if k.Some? then Some(k.value + n) else None
  }

  /** Shifting by `m` and then by `n` is shifting by `m + n`. */
  lemma ShiftTwice(k: Option<nat>, m: nat, n: nat)
    ensures Shift(Shift(k, m), n) == Shift(k, m + n)
  {
  }

  /** Where `\s*:` does not match and the text does not start with `\n`, the group is one
      character longer than the group of the rest. */
  lemma LazyGroupStep(s: string)
    requires s != [] && s[0] != '\n' && !ColonAfterWhiteSpace(s)
    ensures LazyGroupLength(s) == Shift(LazyGroupLength(s[1..]), 1)
  {
  }

  /** The lazy group can grow past position `i` of `s`: that character is not a `\n` and `\s*:`
      does not match there. */
  predicate RunsOn(s: string, i: nat) {
    i < |s| && s[i] != '\n' && !ColonAfterWhiteSpace(s[i..])
  }

  /** A group cannot end in the first `j` characters of `s` when it can grow past each of them:
      the search runs on past them. */
  lemma {:induction false} LazyGroupPasses(s: string, j: nat)
    requires j <= |s|
    requires forall i :: 0 <= i < j ==> RunsOn(s, i)
    ensures LazyGroupLength(s) == Shift(LazyGroupLength(s[j..]), j)
    decreases j
  {
    if j == 0 {
      assert s[0..] == s;
    } else {
      var k: nat := j - 1;
      LazyGroupPasses(s, k);
      assert RunsOn(s, k);
      var r := s[k..];
      assert r[1..] == s[j..];
      LazyGroupStep(r);
      ShiftTwice(LazyGroupLength(s[j..]), 1, k);
    }
  }

  /** In a line without a colon, with nothing but white space and no colon after the line,
      `\s*:` matches nowhere. */
  lemma NoColonAfterWhiteSpace(line: string, tail: string)
    requires ':' !in line
    requires tail == [] || !ColonAfterWhiteSpace(tail)
    ensures !ColonAfterWhiteSpace(line + tail)
  {
    if IsBlank(line) {
      LeadingWhiteSpaceOfBlank(line, tail);
      assert (line + tail)[|line|..] == tail;
      if tail != [] && LeadingWhiteSpace(tail) < |tail| {
        assert (line + tail)[|line| + LeadingWhiteSpace(tail)] == tail[LeadingWhiteSpace(tail)];
      }
    } else {
      LeadingWhiteSpaceOfNonBlank(line, tail);
      assert (line + tail)[LeadingWhiteSpace(line)] == line[LeadingWhiteSpace(line)];
    }
  }

  /** A search that starts on a `\n` finds what a search just after it finds: the `\n` can only
      belong to the white space of an empty group. */
  lemma NewlineSkipped(t: string)
    requires t != [] && t[0] == '\n'
    ensures AllDevices(t) == AllDevices(t[1..])
  {
    var rest := t[1..];
    NewlineWhiteSpace(t);
    if ColonAfterWhiteSpace(rest) {
      EmptyGroup(t);
      EmptyGroup(rest);
      var colon := LeadingWhiteSpace(rest);
      assert t[0..] == t && rest[0..] == rest;
      assert t[colon + 2..] == rest[colon + 1..];
      assert MatchLength(t, 0) == 1 + MatchLength(rest, 0);
      assert t[MatchLength(t, 0)..] == rest[MatchLength(rest, 0)..];
    } else {
      assert LazyGroupLength(t) == None;
    }
  }

  /** A `\n` at the start is one more character for `\s*`, and `\s*:` matches there iff it
      matches just after it. */
  lemma NewlineWhiteSpace(t: string)
    requires t != [] && t[0] == '\n'
    ensures LeadingWhiteSpace(t) == 1 + LeadingWhiteSpace(t[1..])
    ensures ColonAfterWhiteSpace(t) <==> ColonAfterWhiteSpace(t[1..])
  {
    var rest := t[1..];
    assert LeadingWhiteSpace(t) == 1 + LeadingWhiteSpace(rest);
    var colon := LeadingWhiteSpace(rest);
    assert colon < |rest| ==> t[1 + colon] == rest[colon];
  }

  /** The facts about a line's first colon `c` and the end `k` of the text before it, trimmed,
      that the next lemmas use. */
  predicate ColonAt(line: string, k: nat, c: nat) {
    && k <= c < |line| && line[c] == ':'
    && (forall j :: 0 <= j < c ==> line[j] != ':' && line[j] != '\n')
    && (forall j :: k <= j < c ==> IsWhiteSpace(line[j]))
    && (k == 0 || !IsWhiteSpace(line[k - 1]))
  }

  lemma LineDeviceColon(line: string)
    requires '\n' !in line && ':' in line
    ensures ColonAt(line, |LineDevice(line).value|, FirstIndexOf(line, ':'))
  {
    var c := FirstIndexOf(line, ':');
    var d := TrimEnd(line[..c]);
    assert LineDevice(line).value == d;
    assert forall j :: 0 <= j < c ==> line[j] != '\n' by {
      forall j | 0 <= j < c ensures line[j] != '\n' {
        assert line[j] in line;
      }
    }
    assert forall j :: |d| <= j < c ==> IsWhiteSpace(line[j]) by {
      assert forall j :: |d| <= j < c ==> line[..c][j] == line[j];
    }
    assert |d| == 0 || !IsWhiteSpace(line[|d| - 1]) by {
      if |d| > 0 {
        assert line[..c][|d| - 1] == d[|d| - 1];
      }
    }
  }

  /** `\s*:` matches just after the group, at the white space before the colon. */
  lemma ColonAfterGroup(line: string, tail: string, k: nat, c: nat)
    requires ColonAt(line, k, c)
    ensures k + LeadingWhiteSpace((line + tail)[k..]) == c
    ensures ColonAfterWhiteSpace((line + tail)[k..])
  {
    assert (line + tail)[k..] == line[k..c] + (line[c..] + tail);
    assert IsBlank(line[k..c]);
    LeadingWhiteSpaceOfBlank(line[k..c], line[c..] + tail);
    assert (line[c..] + tail)[0] == ':';
  }

  /** `\s*:` matches at no position before the group's end. */
  lemma NoColonBeforeGroup(line: string, tail: string, k: nat, c: nat, i: nat)
    requires ColonAt(line, k, c) && i < k
    ensures RunsOn(line + tail, i)
  {
    var u := line[i..k];
    assert (line + tail)[i..] == u + (line[k..] + tail);
    assert u[|u| - 1] == line[k - 1];
    LeadingWhiteSpaceOfNonBlank(u, line[k..] + tail);
    var n := LeadingWhiteSpace(u);
    assert (u + (line[k..] + tail))[n] == line[i + n];
  }

  /** Where `\s*:` matches at once, the group is empty. */
  lemma EmptyGroup(t: string)
    requires ColonAfterWhiteSpace(t)
    ensures LazyGroupLength(t) == Some(0)
  {
  }

  /** On a line with a colon the lazy group ends where the white space before the first colon
      begins. */
  lemma GroupBeforeColon(line: string, tail: string, k: nat, c: nat)
    requires ColonAt(line, k, c)
    ensures LazyGroupLength(line + tail) == Some(k)
  {
    var t := line + tail;
    ColonAfterGroup(line, tail, k, c);
    EmptyGroup(t[k..]);
    forall i | 0 <= i < k ensures RunsOn(t, i) {
      NoColonBeforeGroup(line, tail, k, c, i);
    }
    LazyGroupPasses(t, k);
  }

  /** `.*` takes the rest of a line, up to the `\n` that follows it or the end of the text. */
  lemma {:induction false} LineLengthOfLine(line: string, tail: string)
    requires '\n' !in line
    requires tail == [] || tail[0] == '\n'
    ensures LineLength(line + tail) == |line|
  {
    if line == [] {
      assert line + tail == tail;
    } else {
      assert (line + tail)[0] == line[0];
      assert (line + tail)[1..] == line[1..] + tail;
      LineLengthOfLine(line[1..], tail);
    }
  }

  /** A match that starts on a line with a colon ends with that line. */
  lemma MatchEndsWithLine(line: string, tail: string, k: nat, c: nat)
    requires ColonAt(line, k, c) && '\n' !in line
    requires tail == [] || tail[0] == '\n'
    ensures ColonAfterWhiteSpace((line + tail)[k..])
    ensures MatchLength(line + tail, k) == |line|
  {
    ColonAfterGroup(line, tail, k, c);
    assert (line + tail)[c + 1..] == line[c + 1..] + tail;
    assert '\n' !in line[c + 1..] by {
      forall j | c + 1 <= j < |line| ensures line[j] != '\n' {
        assert line[j] in line;
      }
    }
    LineLengthOfLine(line[c + 1..], tail);
  }

  /** A line with a colon, followed by the end of the text or a `\n`, gives its device. */
  lemma ColonLine(line: string, tail: string)
    requires '\n' !in line && ':' in line
    requires tail == [] || tail[0] == '\n'
    ensures AllDevices(line + tail) == [LineDevice(line).value] + AllDevices(tail)
  {
    var t := line + tail;
    var d := LineDevice(line).value;
    LineDeviceColon(line);
    GroupBeforeColon(line, tail, |d|, FirstIndexOf(line, ':'));
    MatchEndsWithLine(line, tail, |d|, FirstIndexOf(line, ':'));
    assert t[..|d|] == d;
    assert t[|line|..] == tail;
  }

  /** A line without a colon gives nothing, unless white space and a colon follow its end. */
  lemma {:induction false} ColonlessLine(line: string, tail: string)
    requires '\n' !in line && ':' !in line
    requires tail == [] || (tail[0] == '\n' && !ColonAfterWhiteSpace(tail))
    ensures AllDevices(line + tail) == AllDevices(tail)
  {
    if line == [] {
      assert line + tail == tail;
    } else {
      var t := line + tail;
      forall i | 0 <= i < |line| ensures RunsOn(t, i) {
        assert line[i] in line;
        assert t[i..] == line[i..] + tail;
        NoColonAfterWhiteSpace(line[i..], tail);
      }
      assert t[|line|..] == tail;
      LazyGroupPasses(t, |line|);
      assert LazyGroupLength(tail) == None by {
        if tail != [] {
          assert !ColonAfterWhiteSpace(tail);
        }
      }
      assert t[1..] == line[1..] + tail;
      ColonlessLine(line[1..], tail);
    }
  }

  /** The last line of the text gives its contribution. */
  lemma LastLine(line: string)
    requires '\n' !in line
    ensures AllDevices(line) == LineContribution(line)
  {
    assert line + [] == line;
    if ':' in line {
      ColonLine(line, []);
    } else {
      ColonlessLine(line, []);
    }
  }

  /** A line followed by a `\n` and more text gives its contribution and then what the rest
      gives, unless it has no colon and `\s*:` matches at the start of the rest. */
  lemma LineThenRest(line: string, rest: string)
    requires '\n' !in line
    requires ':' in line || !ColonAfterWhiteSpace(rest)
    ensures AllDevices(line + ("\n" + rest)) == LineContribution(line) + AllDevices(rest)
  {
    assert ("\n" + rest)[1..] == rest;
    NewlineSkipped("\n" + rest);
    if ':' in line {
      ColonLine(line, "\n" + rest);
    } else {
      LeadingWhiteSpaceOfBlank("\n", rest);
      assert ("\n" + rest)[1..] == rest;
      ColonlessLine(line, "\n" + rest);
    }
  }

  /** The condition holds for the lines after the first. */
  lemma NoCrossLineMatchRest(lines: seq<string>)
    requires |lines| >= 1 && NoCrossLineMatch(lines)
    ensures NoCrossLineMatch(lines[1..])
  {
    forall i | 0 <= i < |lines[1..]| - 1 && ':' !in lines[1..][i]
      ensures !ColonAfterWhiteSpace(Join(lines[1..][i + 1..], "\n"))
    {
      assert lines[1..][i + 1..] == lines[i + 2..];
    }
  }

  /** When no colon-less line runs into a colon on a later line, the pattern reads the text line by
      line: each line with a colon gives the text before its first colon, right-trimmed. */
  lemma {:induction false} AllDevicesByLine(lines: seq<string>)
    requires |lines| >= 1
    requires forall i :: 0 <= i < |lines| ==> '\n' !in lines[i]
    requires NoCrossLineMatch(lines)
    ensures AllDevices(Join(lines, "\n")) == LineDevices(lines)
  {
    var line := lines[0];
    if |lines| == 1 {
      assert Join(lines, "\n") == line;
      LastLine(line);
      assert LineDevices(lines[1..]) == [];
    } else {
      var rest := Join(lines[1..], "\n");
      assert Join(lines, "\n") == line + ("\n" + rest);
      NoCrossLineMatchRest(lines);
      AllDevicesByLine(lines[1..]);
      assert lines[1..] == lines[0 + 1..];
      LineThenRest(line, rest);
    }
  }

  /** A line `<name> : <description>` gives `<name>`. */
  lemma NamedLine(name: string, description: string)
    requires ':' !in name
    requires name == [] || !IsWhiteSpace(name[|name| - 1])
    ensures LineDevice(name + " : " + description) == Some(name)
  {
    var line := name + " : " + description;
    assert line[|name| + 1] == ':';
    assert forall j :: 0 <= j < |name| ==> line[j] == name[j];
    assert FirstIndexOf(line, ':') == |name| + 1;
    assert line[..|name| + 1] == name + " ";
    TrimEndOfPadded(name, " ");
  }

  /** A line `<name> : <description>` holds a colon, and no `\n` when its parts hold none. */
  lemma NamedLineShape(name: string, description: string)
    requires '\n' !in name && '\n' !in description
    ensures ':' in name + " : " + description
    ensures '\n' !in name + " : " + description
  {
    var line := name + " : " + description;
    assert line[|name| + 1] == ':';
    forall j | 0 <= j < |line| ensures line[j] != '\n' {
      if j < |name| {
        assert line[j] == name[j];
      } else if j >= |name| + 3 {
        assert line[j] == description[j - |name| - 3];
      }
    }
  }

  /** Two lines that each give a device give the two devices, in order. */
  lemma TwoLineDevices(line1: string, line2: string)
    requires LineDevice(line1).Some? && LineDevice(line2).Some?
    ensures LineDevices([line1, line2]) == [LineDevice(line1).value, LineDevice(line2).value]
  {
    assert [line1, line2][1..] == [line2];
    assert LineDevices([line2]) == [LineDevice(line2).value] by {
      assert [line2][1..] == [];
    }
  }

  /** Two lines with a colon each are read line by line. */
  lemma TwoColonLines(line1: string, line2: string)
    requires ':' in line1 && '\n' !in line1 && ':' in line2 && '\n' !in line2
    ensures AllDevices(line1 + "\n" + line2) == [LineDevice(line1).value, LineDevice(line2).value]
  {
    var lines := [line1, line2];
    assert Join(lines, "\n") == line1 + "\n" + line2 by {
      assert lines[1..] == [line2];
    }
    assert NoCrossLineMatch(lines);
    AllDevicesByLine(lines);
    TwoLineDevices(line1, line2);
  }

  /** Two lines `<name> : <description>` give the two names, in order. */
  lemma TwoNamedLines(name1: string, description1: string, name2: string, description2: string)
    requires ':' !in name1 && '\n' !in name1 && '\n' !in description1
    requires ':' !in name2 && '\n' !in name2 && '\n' !in description2
    requires name1 == [] || !IsWhiteSpace(name1[|name1| - 1])
    requires name2 == [] || !IsWhiteSpace(name2[|name2| - 1])
    ensures AllDevices((name1 + " : " + description1) + "\n" + (name2 + " : " + description2)) == [name1, name2]
  {
    NamedLineShape(name1, description1);
    NamedLineShape(name2, description2);
    NamedLine(name1, description1);
    NamedLine(name2, description2);
    TwoColonLines(name1 + " : " + description1, name2 + " : " + description2);
  }

  // The examples take their text as a parameter equal to a literal, and a separate lemma splits
  // the literal into its parts, so the verifier never unfolds the parse on a literal text.

  /** DevCon's two device lines, as two lines `<name> : <description>`. */
  lemma TwoDeviceLinesShape(output: string)
    requires output == "COM3 : Serial Port\nCOM5 : Modem"
    ensures output == ("COM3" + " : " + "Serial Port") + "\n" + ("COM5" + " : " + "Modem")
    ensures ':' !in "COM3" && '\n' !in "COM3" && '\n' !in "Serial Port" && !IsWhiteSpace('3')
    ensures ':' !in "COM5" && '\n' !in "COM5" && '\n' !in "Modem" && !IsWhiteSpace('5')
  {
    assert "COM3" + " : " + "Serial Port" == "COM3 : Serial Port";
    assert "COM5" + " : " + "Modem" == "COM5 : Modem";
  }

  /** Two device lines, written as DevCon writes them. */
  lemma TwoDeviceLinesExample(output: string)
    requires output == "COM3 : Serial Port\nCOM5 : Modem"
    ensures AllDevices(output) == ["COM3", "COM5"]
  {
    TwoDeviceLinesShape(output);
    TwoNamedLines("COM3", "Serial Port", "COM5", "Modem");
  }

  /** A line with a colon followed by two more such lines: the three devices, in order. */
  lemma ThreeColonLines(line1: string, line2: string, line3: string)
    requires ':' in line1 && '\n' !in line1
    requires ':' in line2 && '\n' !in line2 && ':' in line3 && '\n' !in line3
    ensures AllDevices(line1 + "\n" + line2 + "\n" + line3)
      == [LineDevice(line1).value, LineDevice(line2).value, LineDevice(line3).value]
  {
    var rest := line2 + "\n" + line3;
    FirstOfThreeLines(line1, line2, line3);
    LineThenRest(line1, rest);
    TwoColonLines(line2, line3);
    var d := LineDevice(line1).value;
    assert LineContribution(line1) == [d];
  }

  /** Three lines joined by `\n` are the first line, a `\n` and the other two. */
  lemma FirstOfThreeLines(line1: string, line2: string, line3: string)
    ensures line1 + "\n" + line2 + "\n" + line3 == line1 + ("\n" + (line2 + "\n" + line3))
  {
  }

  /** Three lines `<name> : <description>` give the three names, in order. */
  lemma ThreeNamedLines(name1: string, description1: string, name2: string, description2: string,
                        name3: string, description3: string)
    requires ':' !in name1 && '\n' !in name1 && '\n' !in description1
    requires ':' !in name2 && '\n' !in name2 && '\n' !in description2
    requires ':' !in name3 && '\n' !in name3 && '\n' !in description3
    requires name1 == [] || !IsWhiteSpace(name1[|name1| - 1])
    requires name2 == [] || !IsWhiteSpace(name2[|name2| - 1])
    requires name3 == [] || !IsWhiteSpace(name3[|name3| - 1])
    ensures AllDevices((name1 + " : " + description1) + "\n" + (name2 + " : " + description2) + "\n"
      + (name3 + " : " + description3)) == [name1, name2, name3]
  {
    NamedLineShape(name1, description1);
    NamedLineShape(name2, description2);
    NamedLineShape(name3, description3);
    NamedLine(name1, description1);
    NamedLine(name2, description2);
    NamedLine(name3, description3);
    ThreeColonLines(name1 + " : " + description1, name2 + " : " + description2, name3 + " : " + description3);
  }

  /** DevCon's three device lines, as three lines `<name> : <description>`. */
  lemma ThreeDeviceLinesShape(output: string)
    requires output == "COM3 : Foo\nCOM5 : Bar\nCOM7 : Baz"
    ensures output == ("COM3" + " : " + "Foo") + "\n" + ("COM5" + " : " + "Bar") + "\n" + ("COM7" + " : " + "Baz")
    ensures ':' !in "COM3" && '\n' !in "COM3" && '\n' !in "Foo" && !IsWhiteSpace('3')
    ensures ':' !in "COM5" && '\n' !in "COM5" && '\n' !in "Bar" && !IsWhiteSpace('5')
    ensures ':' !in "COM7" && '\n' !in "COM7" && '\n' !in "Baz" && !IsWhiteSpace('7')
  {
    assert "COM3" + " : " + "Foo" == "COM3 : Foo";
    assert "COM5" + " : " + "Bar" == "COM5 : Bar";
    assert "COM7" + " : " + "Baz" == "COM7 : Baz";
  }

  /** Three device lines give the three identifiers, in order. */
  lemma ThreeDeviceLinesExample(output: string)
    requires output == "COM3 : Foo\nCOM5 : Bar\nCOM7 : Baz"
    ensures AllDevices(output) == ["COM3", "COM5", "COM7"]
  {
    ThreeDeviceLinesShape(output);
    ThreeNamedLines("COM3", "Foo", "COM5", "Bar", "COM7", "Baz");
  }

  /** No match starts inside a word without white space, colon or line break. */
  lemma WordPasses(word: string, t: string)
    requires HasNoWhiteSpace(word) && ':' !in word && '\n' !in word
    ensures forall i :: 0 <= i < |word| ==> RunsOn(word + t, i)
  {
    forall i | 0 <= i < |word| ensures RunsOn(word + t, i) {
      assert word[i] in word;
      var a := word[i..];
      assert (word + t)[i..] == a + t;
      assert a[0] == word[i] && !IsBlank(a);
      LeadingWhiteSpaceOfNonBlank(a, t);
      assert (a + t)[0] == word[i];
    }
  }

  /** `\s*:` matches at a line break followed by a colon. */
  lemma NewlineColon(x: string)
    ensures LazyGroupLength("\n:" + x) == Some(0)
  {
    var s := "\n:" + x;
    assert s[1..] == ":" + x;
    assert LeadingWhiteSpace(s[1..]) == 0 by {
      assert s[1..][0] == ':';
    }
    assert LeadingWhiteSpace(s) == 1;
  }

  /** The group of a match at the start of a word followed by a line that starts with a colon
      is the word. */
  lemma NextLineGroup(word: string, x: string)
    requires HasNoWhiteSpace(word) && ':' !in word && '\n' !in word
    ensures LazyGroupLength(word + ("\n:" + x)) == Some(|word|)
  {
    var rest := "\n:" + x;
    var t := word + rest;
    WordPasses(word, rest);
    NewlineColon(x);
    assert t[|word|..] == rest;
    LazyGroupPasses(t, |word|);
  }

  /** That match takes the line break, the colon and the whole second line. */
  lemma NextLineMatchLength(word: string, x: string)
    requires '\n' !in x
    ensures ColonAfterWhiteSpace((word + ("\n:" + x))[|word|..])
    ensures MatchLength(word + ("\n:" + x), |word|) == |word| + 2 + |x|
  {
    var rest := "\n:" + x;
    var t := word + rest;
    assert t[|word|..] == rest;
    assert LeadingWhiteSpace(rest) == 1 by {
      assert rest[1..] == ":" + x && (":" + x)[0] == ':';
    }
    assert t[|word| + 2..] == x;
    assert x + [] == x;
    LineLengthOfLine(x, []);
  }

  /** The search for `\s*:` runs on over a line break: a word on its own line, followed by a line
      that starts with a colon, is reported as one device, the word, and the match takes the
      second line as well. */
  lemma ColonOnNextLine(word: string, x: string)
    requires HasNoWhiteSpace(word) && ':' !in word && '\n' !in word && '\n' !in x
    ensures AllDevices(word + ("\n:" + x)) == [word]
  {
    var t := word + ("\n:" + x);
    NextLineGroup(word, x);
    NextLineMatchLength(word, x);
    assert t[..|word|] == word;
    assert t[|t|..] == [];
  }

  /** Read line by line, the same two lines give the empty name of the second line, and they do
      not meet the condition of `AllDevicesByLine`. */
  lemma ColonOnNextLineByLine(word: string, x: string)
    requires ':' !in word
    ensures LineDevices([word, ":" + x]) == [""]
    ensures !NoCrossLineMatch([word, ":" + x])
  {
    var second := ":" + x;
    assert [word, second][1..] == [second];
    assert second[0] == ':' && FirstIndexOf(second, ':') == 0;
    assert LineDevice(second) == Some("");
    var one: seq<string> := [second];
    assert LineDevices(one) == [""] by {
      assert one[1..] == [];
    }
    assert Join([second], "\n") == second;
    assert LeadingWhiteSpace(second) == 0;
  }

  /** `"abc\n:x"` gives `["abc"]`, where reading line by line gives `[""]`. */
  lemma CrossLineMatchExample(output: string)
    requires output == "abc\n:x"
    ensures AllDevices(output) == ["abc"]
    ensures LineDevices(["abc", ":x"]) == [""]
    ensures !NoCrossLineMatch(["abc", ":x"])
  {
    assert output == "abc" + ("\n:" + "x");
    assert ":x" == ":" + "x";
    assert HasNoWhiteSpace("abc") && ':' !in "abc" && '\n' !in "abc" && '\n' !in "x";
    ColonOnNextLine("abc", "x");
    ColonOnNextLineByLine("abc", "x");
  }

  /** `ObtainAllDevicesWithRegisteredPorts`: query DevCon and add group 1 of every match, in the
      order `Matches` returns them, to the list. The left-to-right search for the matches is
      `AllDevices`; this loop is the `foreach` over the matches already found, not the parse. */
  method ObtainAllDevices(tool: Tool, deviceClass: string) returns (devices: seq<string>)
    ensures devices == AllDevices(tool(AllDevicesCommand(deviceClass)))
  {
    var output := tool(AllDevicesCommand(deviceClass));
    var groups := AllDevices(output);
    devices := [];
    for i := 0 to |groups|
      invariant devices == groups[..i]
    {
      devices := devices + [groups[i]];
    }
    assert groups[..|groups|] == groups;
  }
}
