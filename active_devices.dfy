/** Parsing the output of `resources =<class>` (`ObtainActiveDevicesWithRegisteredPorts`,
    Program.cs lines 14 and 75-85): one device identifier per line. */
module ActiveDevicesParser {
  import opened Collections
  import opened Text
  import opened NewLines
  import opened DevCon

  /** `IsMatch` of the pattern `^([^\s]*)$`: no white space from the start up to the end of the
      text, where `$` also matches just before a final `\n`. */
  predicate MatchesActivePattern(line: string) {
    || HasNoWhiteSpace(line)
    || (|line| > 0 && line[|line| - 1] == '\n' && HasNoWhiteSpace(line[..|line| - 1]))
  }

  /** A line is an active device when it is not blank (line 79) and matches the pattern (line 81). */
  predicate IsActiveDeviceLine(line: string) {
    !IsBlank(line) && MatchesActivePattern(line)
  }

  /** The active devices listed in `output`, in the order of their lines. */
  function ActiveDevices(output: string): seq<string> {
    Filter(SplitLines(output), IsActiveDeviceLine)
  }

  /** On a split line (no line break in it) the two tests together mean: a non-empty token without
      white space. */
  lemma ActiveLineIsToken(line: string)
    requires HasNoLineBreak(line)
    ensures IsActiveDeviceLine(line) <==> line != [] && HasNoWhiteSpace(line)
  {
    if line != [] {
      assert !IsLineBreak(line[|line| - 1]);
      if HasNoWhiteSpace(line) {
        assert !IsWhiteSpace(line[0]);
      }
    }
  }

  /** A line is reported exactly when it is a non-empty line of the output with no white space
      in it; the reported lines keep the order of the output. */
  lemma ActiveDevicesMembership(output: string)
    ensures forall d :: d in ActiveDevices(output) <==> d in SplitLines(output) && d != [] && HasNoWhiteSpace(d)
    ensures IsSubsequence(ActiveDevices(output), SplitLines(output))
  {
    FilterMembers(SplitLines(output), IsActiveDeviceLine);
    FilterIsSubsequence(SplitLines(output), IsActiveDeviceLine);
    forall d | d in SplitLines(output)
      ensures IsActiveDeviceLine(d) <==> d != [] && HasNoWhiteSpace(d)
    {
      ActiveLineIsToken(d);
    }
  }

  /** A one-line output lists that line exactly when it is a non-empty token without white
      space, and nothing otherwise. */
  lemma OneLineOutput(line: string)
    requires HasNoLineBreak(line)
    ensures ActiveDevices(line) == if line != [] && HasNoWhiteSpace(line) then [line] else []
  {
    SplitSingleLine(line);
    ActiveLineIsToken(line);
  }

  /** Output that is empty or holds only white space lists no device. */
  lemma BlankOutputHasNoActiveDevices(output: string)
    requires IsBlank(output)
    ensures ActiveDevices(output) == []
  {
    var lines := SplitLines(output);
    SplitLinesChars(output);
    forall i | 0 <= i < |lines| ensures !IsActiveDeviceLine(lines[i]) {
      var line := lines[i];
      if line != [] {
        assert line[0] in output;
        assert IsWhiteSpace(line[0]);
        assert !HasNoWhiteSpace(line);
        ActiveLineIsToken(line);
      }
    }
    FilterKeepsNone(lines, IsActiveDeviceLine);
  }

  /** Lines written out with any separator are parsed line by line. */
  lemma ActiveDevicesOfLines(lines: seq<string>, sep: string)
    requires |lines| >= 1 && IsSeparator(sep)
    requires forall i :: 0 <= i < |lines| ==> HasNoLineBreak(lines[i])
    ensures ActiveDevices(Join(lines, sep)) == Filter(lines, IsActiveDeviceLine)
  {
    SplitJoin(lines, sep);
  }

  /** The three lines of the text in `BlankLineSkippedExample`. */
  lemma SplitThreeLines()
    ensures SplitLines("COM3\n\nCOM5") == ["COM3", "", "COM5"]
  {
    var lines := ["COM3", "", "COM5"];
    assert lines[1..] == ["", "COM5"] && lines[1..][1..] == ["COM5"];
    assert Join(lines, "\n") == "COM3\n\nCOM5";
    assert HasNoLineBreak(lines[0]) && HasNoLineBreak(lines[1]) && HasNoLineBreak(lines[2]);
    SplitJoin(lines, "\n");
  }

  /** Of those three lines the blank one is dropped. */
  lemma FilterThreeLines()
    ensures Filter(["COM3", "", "COM5"], IsActiveDeviceLine) == ["COM3", "COM5"]
  {
    assert IsActiveDeviceLine("COM3") by { ActiveLineIsToken("COM3"); }
    assert IsActiveDeviceLine("COM5") by { ActiveLineIsToken("COM5"); }
    assert !IsActiveDeviceLine("");
    assert Filter(["COM5"], IsActiveDeviceLine) == ["COM5"];
    assert Filter(["", "COM5"], IsActiveDeviceLine) == ["COM5"];
  }

  /** A blank line in the middle is skipped. */
  lemma BlankLineSkippedExample()
    ensures ActiveDevices("COM3\n\nCOM5") == ["COM3", "COM5"]
  {
    SplitThreeLines();
    FilterThreeLines();
  }

  /** A line holding a space is dropped. */
  lemma SpacedLineDroppedExample()
    ensures ActiveDevices("COM3\r\nCOM 5") == ["COM3"]
  {
    var lines := ["COM3", "COM 5"];
    assert lines[1..] == ["COM 5"];
    assert Join(lines, "\r\n") == "COM3\r\nCOM 5";
    assert HasNoLineBreak(lines[0]) && HasNoLineBreak(lines[1]);
    ActiveDevicesOfLines(lines, "\r\n");
    assert IsActiveDeviceLine("COM3") by { ActiveLineIsToken("COM3"); }
    assert !IsActiveDeviceLine("COM 5") by {
      assert IsWhiteSpace("COM 5"[3]);
      ActiveLineIsToken("COM 5");
    }
    assert Filter(["COM 5"], IsActiveDeviceLine) == [];
  }

  /** `ObtainActiveDevicesWithRegisteredPorts`: query DevCon and keep the active-device lines. */
  method ObtainActiveDevices(tool: Tool, deviceClass: string) returns (devices: seq<string>)
    ensures devices == ActiveDevices(tool(ActiveDevicesCommand(deviceClass)))
    ensures forall d :: d in devices ==> d != [] && HasNoWhiteSpace(d)
  {
    var output := tool(ActiveDevicesCommand(deviceClass));
    var lines := SplitLines(output);
    devices := [];
    for i := 0 to |lines|
      invariant devices == Filter(lines[..i], IsActiveDeviceLine)
    {
      FilterAppend(lines[..i], lines[i], IsActiveDeviceLine);
      assert lines[..i + 1] == lines[..i] + [lines[i]];
      if IsBlank(lines[i]) { continue; }
      if !MatchesActivePattern(lines[i]) { continue; }
      devices := devices + [lines[i]];
    }
    assert lines[..|lines|] == lines;
    ActiveDevicesMembership(output);
  }
}
