/** The DevCon command lines the core builds and the one output marker it reads
    (Program.cs lines 11-16 and 98-115). */
module DevCon {
  import opened Collections
  import opened Text

  /** DevCon.exe as the core sees it: the text it prints on standard output for an argument
      string. Starting the process is outside the model; it is a function of the arguments. */
  type Tool = string -> string

  const ActiveDevicesQuery: string := "resources ="
  const AllDevicesQuery: string := "findall ="
  const RemovePrefix: string := "remove @\""
  const RemoveSuffix: string := "\""

  /** The output DevCon prints after removing exactly one device. */
  const RemovedMarker: string := "1 device(s) were removed."

  /** Arguments of the query for the devices of a class that are present now. */
  function ActiveDevicesCommand(deviceClass: string): string {
    ActiveDevicesQuery + deviceClass
  }

  /** Arguments of the query for every registered device of a class, present or not. */
  function AllDevicesCommand(deviceClass: string): string {
    AllDevicesQuery + deviceClass
  }

  /** Arguments that remove one device: its identifier verbatim between `@"` and `"`. */
  function RemoveCommand(device: string): string {
    RemovePrefix + device + RemoveSuffix
  }

  /** The device a removal command names, read back from the command. */
  function DeviceOfRemoveCommand(command: string): (d: Option<string>)
    ensures d.Some? ==> |command| == |RemovePrefix| + |d.value| + |RemoveSuffix|
    ensures d.Some? ==> command == RemoveCommand(d.value)
  {
    assert |command| >= |RemovePrefix| + |RemoveSuffix| ==>
      command == command[..|RemovePrefix|] + command[|RemovePrefix|..|command| - |RemoveSuffix|]
        + command[|command| - |RemoveSuffix|..];
    if |command| >= |RemovePrefix| + |RemoveSuffix|
       && command[..|RemovePrefix|] == RemovePrefix
       && command[|command| - |RemoveSuffix|..] == RemoveSuffix
    then Some(command[|RemovePrefix|..|command| - |RemoveSuffix|])
    else None
  }

  /** A removal command names exactly the device it was built for, so distinct devices get
      distinct commands. */
  lemma RemoveCommandRoundTrip(device: string)
    ensures DeviceOfRemoveCommand(RemoveCommand(device)) == Some(device)
  {
    var c := RemoveCommand(device);
    assert c[..|RemovePrefix|] == RemovePrefix;
    assert c[|c| - |RemoveSuffix|..] == RemoveSuffix;
    assert c[|RemovePrefix|..|c| - |RemoveSuffix|] == device;
  }

  /** The three kinds of command never coincide, and each determines its argument. */
  lemma CommandsAreDistinct(a: string, b: string, device: string)
    ensures ActiveDevicesCommand(a) != AllDevicesCommand(b)
    ensures ActiveDevicesCommand(a) != RemoveCommand(device)
    ensures AllDevicesCommand(b) != RemoveCommand(device)
    ensures ActiveDevicesCommand(a) == ActiveDevicesCommand(b) ==> a == b
    ensures AllDevicesCommand(a) == AllDevicesCommand(b) ==> a == b
  {
    assert ActiveDevicesCommand(a)[0] == 'r' && AllDevicesCommand(b)[0] == 'f';
    assert ActiveDevicesCommand(a)[2] == 's' && RemoveCommand(device)[2] == 'm';
    assert AllDevicesCommand(b)[0] == 'f' && RemoveCommand(device)[0] == 'r';
    if ActiveDevicesCommand(a) == ActiveDevicesCommand(b) {
      assert a == ActiveDevicesCommand(a)[|ActiveDevicesQuery|..];
    }
    if AllDevicesCommand(a) == AllDevicesCommand(b) {
      assert a == AllDevicesCommand(a)[|AllDevicesQuery|..];
    }
  }

  /** Whether DevCon's output reports a removal: it contains the marker somewhere. */
  function RemovalSucceeded(output: string): (ok: bool)
    ensures ok <==> exists i: nat :: OccursAt(output, RemovedMarker, i)
  {
    Contains(output, RemovedMarker)
  }

  /** `RemoveDevice`: run the removal command for `device` and read its outcome. */
  function RemoveDevice(tool: Tool, device: string): bool {
    RemovalSucceeded(tool(RemoveCommand(device)))
  }

  /** `RemoveDevice` as a predicate on devices: the removal of `d` succeeds. */
  function Succeeds(tool: Tool): string -> bool {
    d => RemoveDevice(tool, d)
  }

  /** The removal of `d` fails. */
  function Fails(tool: Tool): string -> bool {
    d => !RemoveDevice(tool, d)
  }

  /** The outputs DevCon prints for one, none and eleven removed devices, and no output. */
  lemma RemovalOutcomeExamples()
    ensures RemovalSucceeded("1 device(s) were removed.")
    ensures !RemovalSucceeded("0 device(s) were removed.")
    ensures !RemovalSucceeded("")
    ensures RemovalSucceeded("11 device(s) were removed.")
  {
    assert OccursAt("1 device(s) were removed.", RemovedMarker, 0);
    assert OccursAt("11 device(s) were removed.", RemovedMarker, 1);
    forall i: nat ensures !OccursAt("0 device(s) were removed.", RemovedMarker, i) {
      if i == 0 {
        assert "0 device(s) were removed."[0] != RemovedMarker[0];
      }
    }
  }
}
