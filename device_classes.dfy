/** Choosing the device class the run works on (`PromptDeviceClass`, Program.cs lines 22-23 and 61-73). */
module DeviceClasses {
  import opened Text

  const AvailableClasses: seq<string> := ["ports", "usb"]
  const DefaultClass: string := AvailableClasses[0]

  /** The class chosen, and whether the operator is told the input was invalid (line 71). */
  datatype ClassChoice = ClassChoice(deviceClass: string, invalidNotice: bool)

  /** The decision on an already lower-cased input line: a listed class is taken as it is; a
      blank line quietly gives the default; anything else gives the default with a notice. */
  function SelectDeviceClass(lowered: string): (c: ClassChoice)
    ensures c.deviceClass in AvailableClasses
    ensures c.deviceClass == lowered <==> lowered in AvailableClasses
    ensures lowered !in AvailableClasses ==> c.deviceClass == DefaultClass
    ensures c.invalidNotice <==> lowered !in AvailableClasses && !IsBlank(lowered)
  {
    if lowered in AvailableClasses then ClassChoice(lowered, false)
    else if IsBlank(lowered) then ClassChoice(DefaultClass, false)
    else ClassChoice(DefaultClass, true)
  }

  /** The whole prompt decision on the line the operator typed, lower-cased first. */
  function PromptDeviceClass(typed: string): (c: ClassChoice)
    ensures c.deviceClass == "ports" || c.deviceClass == "usb"
  {
    SelectDeviceClass(AsciiLower(typed))
  }

  /** Choosing again from a chosen class keeps it, without a notice. */
  lemma SelectionIsStable(lowered: string)
    ensures SelectDeviceClass(SelectDeviceClass(lowered).deviceClass) == ClassChoice(SelectDeviceClass(lowered).deviceClass, false)
  {
  }

  /** The prompt ignores letter case. */
  lemma PromptIgnoresCase(typed: string)
    ensures PromptDeviceClass(typed) == PromptDeviceClass(AsciiLower(typed))
  {
    AsciiLowerIdempotent(typed);
  }

  /** Typical input lines. */
  lemma PromptExamples()
    ensures PromptDeviceClass("USB") == ClassChoice("usb", false)
    ensures PromptDeviceClass("") == ClassChoice("ports", false)
    ensures PromptDeviceClass("  ") == ClassChoice("ports", false)
    ensures PromptDeviceClass("hid") == ClassChoice("ports", true)
  {
    assert AsciiLower("USB") == "usb";
    assert AsciiLower("  ") == "  ";
    assert AsciiLower("hid") == "hid" && !IsWhiteSpace("hid"[0]);
  }
}
