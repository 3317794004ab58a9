# DevCon stale-device cleaner, modelled in Dafny

The program `PocLimpadorDispositivosOcultos` removes "hidden" devices from Windows. These are
devices that are still registered but no longer connected. It works through the Windows Device
Console utility, `DevCon.exe`, in these steps:

1. Ask the operator for a device class, `ports` or `usb`, with `ports` as the default.
2. Run `resources =<class>` to list the devices present now, one identifier per line.
3. Run `findall =<class>` to list every registered device, present or not, as `<identifier> : <description>` lines.
4. Keep the registered devices that are not present.
5. Run `remove @"<identifier>"` for each kept device. A removal succeeds when DevCon's output contains `1 device(s) were removed.`
6. Count the removals that succeed, report each one that fails, and choose the summary: none, one, or the count.

The model is split into these modules:

| module | file | contents |
|---|---|---|
| `Collections` | `collections.dfy` | LINQ `Where` (`Filter`) and the order relation `IsSubsequence` |
| `Text` | `text.dfy` | white space as .NET defines it, `string.IsNullOrWhiteSpace`, `TrimEnd`, ordinal `string.Contains`, lower-casing |
| `NewLines` | `newlines.dfy` | `Regex.Split` with `\r\n\|\n\|\r` |
| `DevCon` | `devcon.dfy` | DevCon seen as a function from arguments to output; the three command lines; the removal marker |
| `DeviceClasses` | `device_classes.dfy` | `PromptDeviceClass` |
| `ActiveDevicesParser` | `active_devices.dfy` | `ObtainActiveDevicesWithRegisteredPorts` and the pattern `^([^\s]*)$` |
| `AllDevicesParser` | `all_devices.dfy` | `ObtainAllDevicesWithRegisteredPorts` and the pattern `(.*?)\s*:.*` |
| `Reconciliation` | `reconciliation.dfy` | the filter of line 31 |
| `Driver` | `driver.dfy` | the removal loop, the summary switch, and `Main` as `Run` |

The three regular expressions are written out as functions over characters, and they follow .NET's
semantics:

- `\s` is the set `char.IsWhiteSpace` accepts.
- `.` matches every character except `\n`.
- `$` also matches just before a final `\n`.
- `Regex.Matches` searches from left to right. Each search starts where the previous match ended, or one character further on when nothing matched there.

The pattern `(.*?)\s*:.*` is applied to the whole output, not to each line. `AllDevices` models it
that way, and `AllDevicesByLine` proves the line-by-line reading under one hypothesis: no line
without a colon is followed by white space, possibly across line breaks, and then a colon. Under
that hypothesis, each line with a colon gives the text before its first colon, with the white space
just before the colon removed, and every other line gives nothing. Without the hypothesis the
reading differs, because `\s*` can cross a line break: `CrossLineMatchExample` shows `"abc\n:x"`
giving `["abc"]` where a line-by-line reading gives `[""]`. Before the first colon the pattern
accepts any white space, or none, so DevCon's ` : ` separator is one case among many.

"A device identifier" is a string compared by ordinal equality. The removal loop is a method whose
results are tied to `Filter` over the removal outcome, so it is exact about order, duplicates and
the split between counted and reported devices. `Run` returns everything the run decides, and the
DevCon commands it issues, in order.

## Model

| member | source | states |
|---|---|---|
| `Collections.Filter` | PocLimpadorDispositivosOcultos/Program.cs:31 | `Where` keeps at most the input's elements, and only accepted ones |
| `Collections.FilterMembers` | PocLimpadorDispositivosOcultos/Program.cs:31 | an element is in `Where`'s result iff it is in the input and accepted |
| `Collections.FilterCounts` | PocLimpadorDispositivosOcultos/Program.cs:31 | `Where` keeps every occurrence of an accepted element and none of a rejected one |
| `Collections.FilterIsSubsequence` | PocLimpadorDispositivosOcultos/Program.cs:31 | `Where` keeps the input order |
| `Collections.FilterAppend` | PocLimpadorDispositivosOcultos/Program.cs:34-39 | one more element at the end is appended to `Where`'s result iff it is accepted; this is the step of each `foreach` |
| `Collections.FilterSplits` | PocLimpadorDispositivosOcultos/Program.cs:36-38 | an element is either accepted or rejected, so the two results' lengths add up to the input's |
| `Text.TrimEnd` | PocLimpadorDispositivosOcultos/Program.cs:17 | removes only white space at the end, and leaves a string that does not end in white space |
| `Text.TrimEndOfPadded` | PocLimpadorDispositivosOcultos/Program.cs:17 | white space appended to a string that does not end in white space is exactly what is removed |
| `Text.FirstIndexOf` | PocLimpadorDispositivosOcultos/Program.cs:17 | the position of the first occurrence of a character, or the length when it is absent |
| `Text.Contains` | PocLimpadorDispositivosOcultos/Program.cs:102 | ordinal `Contains`: true iff the substring occurs at some position |
| `Text.AsciiLower` | PocLimpadorDispositivosOcultos/Program.cs:65-69 | no capital `A`-`Z` is left and each becomes a small letter; every other character is kept; a blank line stays blank, which the blank test of line 69, after `ToLower`, relies on |
| `Text.AsciiLowerIdempotent` | PocLimpadorDispositivosOcultos/Program.cs:65 | lower-casing twice is lower-casing once |
| `NewLines.SplitLines` | PocLimpadorDispositivosOcultos/Program.cs:20 | splitting gives at least one piece, and no piece holds `\n` or `\r` |
| `NewLines.SplitSingleLine` | PocLimpadorDispositivosOcultos/Program.cs:20 | a text without a line break is a single piece |
| `NewLines.SplitFirstLine` | PocLimpadorDispositivosOcultos/Program.cs:20 | a line followed by a separator is the first piece; a bare `\r` followed by `\n` is one separator |
| `NewLines.SplitJoin` | PocLimpadorDispositivosOcultos/Program.cs:20 | splitting gives back exactly the lines joined with any of `\r\n`, `\n`, `\r`, empty lines included |
| `NewLines.SplitLinesChars` | PocLimpadorDispositivosOcultos/Program.cs:20 | every character of every piece comes from the text |
| `NewLines.CrLfIsOneSeparator` | PocLimpadorDispositivosOcultos/Program.cs:20 | `"a\r\nb"` splits into `["a","b"]`, not three pieces |
| `DevCon.DeviceOfRemoveCommand` | PocLimpadorDispositivosOcultos/Program.cs:100 | a removal command is read back as a device exactly when it is `remove @"<device>"`: the command is then the one built for that device |
| `DevCon.RemoveCommandRoundTrip` | PocLimpadorDispositivosOcultos/Program.cs:100 | a removal command names exactly the device it is built for |
| `DevCon.CommandsAreDistinct` | PocLimpadorDispositivosOcultos/Program.cs:13-16 | the `resources =`, `findall =` and removal commands never coincide, and each query determines its class |
| `DevCon.RemovalSucceeded` | PocLimpadorDispositivosOcultos/Program.cs:102 | success iff `1 device(s) were removed.` occurs somewhere in the output |
| `DevCon.RemovalOutcomeExamples` | PocLimpadorDispositivosOcultos/Program.cs:102 | `"1 device(s)…"` and `"11 device(s)…"` succeed; `"0 device(s)…"` and `""` fail |
| `DeviceClasses.SelectDeviceClass` | PocLimpadorDispositivosOcultos/Program.cs:67-72 | a listed class is kept; anything else gives `ports`; the invalid-class notice appears iff the input is neither listed nor blank |
| `DeviceClasses.PromptDeviceClass` | PocLimpadorDispositivosOcultos/Program.cs:65-72 | the chosen class is always `ports` or `usb` |
| `DeviceClasses.SelectionIsStable` | PocLimpadorDispositivosOcultos/Program.cs:67 | choosing again from a chosen class keeps it, without a notice |
| `DeviceClasses.PromptIgnoresCase` | PocLimpadorDispositivosOcultos/Program.cs:65 | the choice does not depend on letter case |
| `DeviceClasses.PromptExamples` | PocLimpadorDispositivosOcultos/Program.cs:22-23 | `USB` gives `usb`; empty and blank input give `ports` quietly; `hid` gives `ports` with the notice |
| `ActiveDevicesParser.ActiveLineIsToken` | PocLimpadorDispositivosOcultos/Program.cs:79-81 | on a split line, the blank test and the pattern together accept exactly a non-empty line without white space |
| `ActiveDevicesParser.ActiveDevicesMembership` | PocLimpadorDispositivosOcultos/Program.cs:79-83 | a line is reported iff it is a non-empty output line without white space; reported lines keep their order |
| `ActiveDevicesParser.OneLineOutput` | PocLimpadorDispositivosOcultos/Program.cs:79-83 | a one-line output lists that line iff it is non-empty and holds no white space, and lists nothing otherwise |
| `ActiveDevicesParser.BlankOutputHasNoActiveDevices` | PocLimpadorDispositivosOcultos/Program.cs:79 | empty or blank output lists no device |
| `ActiveDevicesParser.ActiveDevicesOfLines` | PocLimpadorDispositivosOcultos/Program.cs:79-83 | for lines joined with any separator, the parse is the filter over those lines |
| `ActiveDevicesParser.BlankLineSkippedExample` | PocLimpadorDispositivosOcultos/Program.cs:79-83 | `"COM3\n\nCOM5"` gives `["COM3","COM5"]` |
| `ActiveDevicesParser.SpacedLineDroppedExample` | PocLimpadorDispositivosOcultos/Program.cs:81 | a line holding a space is dropped |
| `ActiveDevicesParser.ObtainActiveDevices` | PocLimpadorDispositivosOcultos/Program.cs:75-85 | the loop yields exactly the parse of the `resources =<class>` output, each device a non-empty token without white space |
| `AllDevicesParser.LazyGroupLength` | PocLimpadorDispositivosOcultos/Program.cs:17 | a lazy group found is followed by `\s*:` and holds no `\n` |
| `AllDevicesParser.MatchLength` | PocLimpadorDispositivosOcultos/Program.cs:17 | every match is longer than its group, so the left-to-right search always moves on |
| `AllDevicesParser.LineDevice` | PocLimpadorDispositivosOcultos/Program.cs:17-18 | a line gives a device iff it has a colon; the device is a prefix of the line without a colon |
| `AllDevicesParser.NewlineSkipped` | PocLimpadorDispositivosOcultos/Program.cs:90 | a search that starts on a `\n` finds what a search just after it finds |
| `AllDevicesParser.LazyGroupStep` | PocLimpadorDispositivosOcultos/Program.cs:17 | where `\s*:` does not match and no `\n` is next, the lazy group is one character longer than the group one position on |
| `AllDevicesParser.LazyGroupPasses` | PocLimpadorDispositivosOcultos/Program.cs:17 | the lazy group runs past any stretch without `\n` at which `\s*:` never matches, so its length is the stretch plus the group after it, or there is none |
| `AllDevicesParser.GroupBeforeColon` | PocLimpadorDispositivosOcultos/Program.cs:17 | on a line with a colon, the lazy group ends where the white space before the first colon begins |
| `AllDevicesParser.ColonLine` | PocLimpadorDispositivosOcultos/Program.cs:90-95 | a line with a colon gives its device, and the search resumes at the next line |
| `AllDevicesParser.ColonlessLine` | PocLimpadorDispositivosOcultos/Program.cs:90-95 | a line without a colon gives nothing, unless white space and a colon follow it |
| `AllDevicesParser.LastLine` | PocLimpadorDispositivosOcultos/Program.cs:90-95 | the last line of the output gives exactly its own device, or nothing |
| `AllDevicesParser.LineThenRest` | PocLimpadorDispositivosOcultos/Program.cs:90-95 | a line followed by `\n` gives its own device and then what the rest gives, unless it has no colon and `\s*:` matches right after it |
| `AllDevicesParser.AllDevicesByLine` | PocLimpadorDispositivosOcultos/Program.cs:90-95 | without a cross-line match, the matches are the per-line devices, in line order |
| `AllDevicesParser.NamedLine` | PocLimpadorDispositivosOcultos/Program.cs:17-18 | `<name> : <description>` gives `<name>` |
| `AllDevicesParser.TwoNamedLines` | PocLimpadorDispositivosOcultos/Program.cs:90-95 | two such lines give their two names, in order |
| `AllDevicesParser.TwoDeviceLinesExample` | PocLimpadorDispositivosOcultos/Program.cs:90-95 | `"COM3 : Serial Port\nCOM5 : Modem"` gives `["COM3","COM5"]` |
| `AllDevicesParser.ThreeColonLines` | PocLimpadorDispositivosOcultos/Program.cs:90-95 | three lines with a colon each give their three devices, in order |
| `AllDevicesParser.ThreeDeviceLinesExample` | PocLimpadorDispositivosOcultos/Program.cs:90-95 | `"COM3 : Foo\nCOM5 : Bar\nCOM7 : Baz"` gives `["COM3","COM5","COM7"]` |
| `AllDevicesParser.ColonOnNextLine` | PocLimpadorDispositivosOcultos/Program.cs:17 | a word on one line and a line starting with `:` after it give one device, the word, in one match covering both lines |
| `AllDevicesParser.ColonOnNextLineByLine` | PocLimpadorDispositivosOcultos/Program.cs:17-18 | the same two lines read one at a time give the empty name, and they break the no-cross-line-match condition |
| `AllDevicesParser.CrossLineMatchExample` | PocLimpadorDispositivosOcultos/Program.cs:17 | `"abc\n:x"` gives `["abc"]` while the per-line reading gives `[""]` |
| `AllDevicesParser.ObtainAllDevices` | PocLimpadorDispositivosOcultos/Program.cs:87-96 | the loop yields group 1 of every match in the `findall =<class>` output, in order |
| `Reconciliation.ReconcileSpec` | PocLimpadorDispositivosOcultos/Program.cs:31 | a device is disconnected iff it is registered and not present; duplicates are kept; order is kept |
| `Reconciliation.NothingActive` | PocLimpadorDispositivosOcultos/Program.cs:31 | with nothing present, every registered device is disconnected |
| `Reconciliation.NothingRegistered` | PocLimpadorDispositivosOcultos/Program.cs:31 | with nothing registered, nothing is disconnected |
| `Reconciliation.AllActive` | PocLimpadorDispositivosOcultos/Program.cs:31 | when every registered device is present, nothing is disconnected |
| `Reconciliation.ReconcileIdempotent` | PocLimpadorDispositivosOcultos/Program.cs:31 | reconciling twice against the same present devices changes nothing |
| `Reconciliation.ReconcileExample` | PocLimpadorDispositivosOcultos/Program.cs:31 | `["COM3","COM5"]` against `["COM3","COM5","COM7"]` gives `["COM7"]`; `["COM3"]` against `["COM3","COM5"]` gives `["COM5"]` |
| `Driver.MessageFor` | PocLimpadorDispositivosOcultos/Program.cs:41-54 | the "none" summary iff 0, the singular one iff 1, the plural one iff at least 2 |
| `Driver.MessageReportsCount` | PocLimpadorDispositivosOcultos/Program.cs:41-54 | every summary reports the count it was chosen for |
| `Driver.RemoveCommands` | PocLimpadorDispositivosOcultos/Program.cs:34-36 | one removal command per device, in order |
| `Driver.RemoveCommandsAppend` | PocLimpadorDispositivosOcultos/Program.cs:34-36 | one more device adds its command at the end |
| `Driver.RemoveCommandsNameDevices` | PocLimpadorDispositivosOcultos/Program.cs:100 | each removal command issued reads back as the device at the same position |
| `Driver.DisconnectedAreRegisteredAndAbsent` | PocLimpadorDispositivosOcultos/Program.cs:29-31 | a device is disconnected iff the `findall` parse has it and the `resources` parse does not |
| `Driver.RemoveDisconnectedDevices` | PocLimpadorDispositivosOcultos/Program.cs:33-39 | the count is the number of disconnected devices whose removal succeeds; the failures are the others, in order; one removal command is issued per device, in order |
| `Driver.RemovalAccounting` | PocLimpadorDispositivosOcultos/Program.cs:33-39 | counted and reported devices add up to the disconnected ones, so the count is at most that number, and equal to it iff nothing is reported |
| `Driver.FailuresReported` | PocLimpadorDispositivosOcultos/Program.cs:36-38 | a device is reported iff it is disconnected and its removal fails, as often as it occurs, in order |
| `Driver.Run` | PocLimpadorDispositivosOcultos/Program.cs:25-54 | the class is the prompt's choice; the disconnected devices are the reconciled parses; count, failures and summary are as above; the commands are the two queries, then one removal per disconnected device |
| `Driver.EndToEndExample` | PocLimpadorDispositivosOcultos/Program.cs:27-54 | on the class an empty line chooses, with COM3 present, COM3 and COM5 registered, and COM5's removal succeeding: the disconnected devices are `["COM5"]`, the removal count is 1, no device is reported, and the singular summary is chosen |
| `Driver.BlankLinePresentThreeRegisteredExample` | PocLimpadorDispositivosOcultos/Program.cs:27-54 | with `"COM3\n\nCOM5"` present and `"COM3 : Foo\nCOM5 : Bar\nCOM7 : Baz"` registered, and COM7's removal succeeding: the disconnected devices are `["COM7"]`, the removal count is 1, no device is reported, and the singular summary is chosen |

## Left out

- Starting `DevCon.exe` (`ExecuteDevCon`, lines 105-115) is not modelled. DevCon is a total function from the argument string to its standard output, so a tool that cannot be started, which aborts the run with an exception, is not modelled. Being a function, it also answers the same command the same way every time: a device listed twice is removed twice with the same outcome, where the real DevCon would report the second removal differently. `Driver.FailuresReported` relies on this when it says a failed device is reported as often as it occurs. The executable path of line 11 is not part of the model.
- The console is left out: the prompt of lines 63-64, the `ReadLine` of line 65, the writes of lines 38, 44-55 and 57, and the `ReadKey` of line 58. The model keeps what is decided: the invalid-class notice (`ClassChoice.invalidNotice`), the failed devices, and which summary is chosen, with its count.
- `ReadLine` returning null at the end of input, which makes line 65 throw, is not modelled; the operator's line is a string.
- The `Stopwatch` of lines 28 and 55 is left out, because elapsed time is not a function of the inputs.
- `DeviceClasses.PromptDeviceClass`: lower-cases with ASCII rules only (`A`-`Z`). `ToLower` follows the current culture, which also lower-cases non-ASCII letters, and under a Turkish culture maps `I` to a dotless `ı`. Both class names are ASCII, so this matters only for inputs with other letters.
- .NET `char` is a UTF-16 code unit, while a Dafny `char` is a Unicode scalar value. Characters outside the Basic Multilingual Plane are therefore one character here and two in .NET. No pattern treats them specially, and every white-space character lies inside that plane.
- The regular-expression engine itself, and its timeouts and options, are not modelled. The three patterns are written out as character-level functions with .NET's semantics for this use.
- The laziness of the two `yield return` iterators is left out. Both are turned into arrays immediately (lines 29-30), so the order of DevCon calls is the order `Run` records.
- The `matches` variable of line 78 is computed and never used, so it is left out.
- `successfullyRemovedDevicesCount` is a 32-bit `int`, and the model uses `nat` for it. It never exceeds the length of the array of disconnected devices, so it cannot wrap around.
- An identifier that holds `"` produces a removal command DevCon reads differently. The model builds the command verbatim, as the code does, and proves that it reads back with `DeviceOfRemoveCommand`, which strips the outermost `remove @"` and `"`; how DevCon itself splits such an identifier is not modelled.
