/** One run of the cleaner (`Main`, Program.cs lines 25-59): choose the class, list present and
    registered devices, remove every registered device that is not present, count the removals and
    choose the summary. */
module Driver {
  import opened Collections
  import NewLines
  import Text
  import opened DevCon
  import opened DeviceClasses
  import opened ActiveDevicesParser
  import opened AllDevicesParser
  import opened Reconciliation

  /** The three summaries of lines 41-54; the plural one shows the count. */
  datatype SummaryMessage = NoDeviceRemoved | OneDeviceRemoved | DevicesRemoved(count: nat)

  /** The summary for a number of removed devices. */
  function MessageFor(removed: nat): (m: SummaryMessage)
    ensures m.NoDeviceRemoved? <==> removed == 0
    ensures m.OneDeviceRemoved? <==> removed == 1
    ensures m.DevicesRemoved? <==> removed >= 2
  {
    match removed
    case 0 => NoDeviceRemoved
    case 1 => OneDeviceRemoved
    case _ => DevicesRemoved(removed)
  }

  /** The number of removed devices a summary reports. */
  function CountOf(m: SummaryMessage): nat {
    match m
    case NoDeviceRemoved => 0
    case OneDeviceRemoved => 1
    case DevicesRemoved(count) => count
  }

  /** Every summary reports the count it was chosen for, so different counts give different
      summaries. */
  lemma MessageReportsCount(removed: nat)
    ensures CountOf(MessageFor(removed)) == removed
  {
  }

  /** The DevCon commands that remove `devices`, one per device, in order. */
  function RemoveCommands(devices: seq<string>): (commands: seq<string>)
    ensures |commands| == |devices|
    ensures forall i :: 0 <= i < |devices| ==> commands[i] == RemoveCommand(devices[i])
  {
    if devices == [] then [] else [RemoveCommand(devices[0])] + RemoveCommands(devices[1..])
  }

  /** The commands for one more device end with that device's command. */
  lemma RemoveCommandsAppend(devices: seq<string>, device: string)
    ensures RemoveCommands(devices + [device]) == RemoveCommands(devices) + [RemoveCommand(device)]
  {
    var left, right := RemoveCommands(devices + [device]), RemoveCommands(devices) + [RemoveCommand(device)];
    assert |left| == |right|;
    forall i | 0 <= i < |left| ensures left[i] == right[i] {
      if i < |devices| {
        assert (devices + [device])[i] == devices[i];
      }
    }
  }

  /** Every removal command is read back as the device it removes, so the commands name the
      devices exactly. */
  lemma RemoveCommandsNameDevices(devices: seq<string>)
    ensures forall i :: 0 <= i < |devices| ==> DeviceOfRemoveCommand(RemoveCommands(devices)[i]) == Some(devices[i])
  {
    forall i | 0 <= i < |devices| ensures DeviceOfRemoveCommand(RemoveCommands(devices)[i]) == Some(devices[i]) {
      RemoveCommandRoundTrip(devices[i]);
    }
  }

  /** The disconnected devices of a class: registered, as read from `findall`, but not present, as
      read from `resources` (lines 29-31). */
  function DisconnectedDevices(tool: Tool, deviceClass: string): seq<string> {
    Reconcile(ActiveDevices(tool(ActiveDevicesCommand(deviceClass))), AllDevices(tool(AllDevicesCommand(deviceClass))))
  }

  /** A disconnected device is one the full list registers and the present list does not hold. */
  lemma DisconnectedAreRegisteredAndAbsent(tool: Tool, deviceClass: string)
    ensures forall d :: d in DisconnectedDevices(tool, deviceClass) <==>
      d in AllDevices(tool(AllDevicesCommand(deviceClass))) && d !in ActiveDevices(tool(ActiveDevicesCommand(deviceClass)))
  {
    ReconcileSpec(ActiveDevices(tool(ActiveDevicesCommand(deviceClass))), AllDevices(tool(AllDevicesCommand(deviceClass))));
  }

  /** The loop of lines 33-39: try to remove each disconnected device in turn, count the removals
      that succeed and report the devices whose removal fails. */
  method RemoveDisconnectedDevices(tool: Tool, disconnected: seq<string>)
    returns (removedCount: nat, failures: seq<string>, commands: seq<string>)
    ensures removedCount == |Filter(disconnected, Succeeds(tool))|
    ensures failures == Filter(disconnected, Fails(tool))
    ensures commands == RemoveCommands(disconnected)
  {
    removedCount, failures, commands := 0, [], [];
    for i := 0 to |disconnected|
      invariant removedCount == |Filter(disconnected[..i], Succeeds(tool))|
      invariant failures == Filter(disconnected[..i], Fails(tool))
      invariant commands == RemoveCommands(disconnected[..i])
    {
      var device := disconnected[i];
      assert disconnected[..i + 1] == disconnected[..i] + [device];
      FilterAppend(disconnected[..i], device, Succeeds(tool));
      FilterAppend(disconnected[..i], device, Fails(tool));
      RemoveCommandsAppend(disconnected[..i], device);
      commands := commands + [RemoveCommand(device)];
      if RemoveDevice(tool, device) {
        removedCount := removedCount + 1;
        continue;
      }
      failures := failures + [device];
    }
    assert disconnected[..|disconnected|] == disconnected;
  }

  /** Every disconnected device is either counted or reported, never both: the count is at most
      the number of disconnected devices, and it is that number exactly when nothing is reported. */
  lemma RemovalAccounting(tool: Tool, disconnected: seq<string>)
    ensures |Filter(disconnected, Succeeds(tool))| + |Filter(disconnected, Fails(tool))| == |disconnected|
    ensures |Filter(disconnected, Succeeds(tool))| <= |disconnected|
    ensures |Filter(disconnected, Succeeds(tool))| == |disconnected| <==> Filter(disconnected, Fails(tool)) == []
  {
    FilterSplits(disconnected, Succeeds(tool), Fails(tool));
  }

  /** The reported devices are the disconnected devices whose removal fails, in order, each as
      often as it occurs among the disconnected devices. */
  lemma FailuresReported(tool: Tool, disconnected: seq<string>)
    ensures forall d :: d in Filter(disconnected, Fails(tool)) <==> d in disconnected && !RemoveDevice(tool, d)
    ensures forall d :: !RemoveDevice(tool, d) ==> multiset(Filter(disconnected, Fails(tool)))[d] == multiset(disconnected)[d]
    ensures IsSubsequence(Filter(disconnected, Fails(tool)), disconnected)
  {
    FilterMembers(disconnected, Fails(tool));
    FilterCounts(disconnected, Fails(tool));
    FilterIsSubsequence(disconnected, Fails(tool));
  }

  /** What a run decides and does: the class chosen, the devices found disconnected, the count of
      removals, the devices reported as not removed, the summary chosen, and the DevCon commands
      issued, in order. */
  datatype RunSummary = RunSummary(
    choice: ClassChoice,
    disconnected: seq<string>,
    removedCount: nat,
    failures: seq<string>,
    message: SummaryMessage,
    commands: seq<string>)

  /** `Main` on the line the operator types, with DevCon as `tool`. */
  method Run(typed: string, tool: Tool) returns (summary: RunSummary)
    ensures summary.choice == PromptDeviceClass(typed)
    ensures summary.disconnected == DisconnectedDevices(tool, summary.choice.deviceClass)
    ensures summary.removedCount == |Filter(summary.disconnected, Succeeds(tool))|
    ensures summary.failures == Filter(summary.disconnected, Fails(tool))
    ensures summary.message == MessageFor(summary.removedCount)
    ensures summary.commands ==
      [ActiveDevicesCommand(summary.choice.deviceClass), AllDevicesCommand(summary.choice.deviceClass)]
      + RemoveCommands(summary.disconnected)
  {
    var choice := PromptDeviceClass(typed);
    var activeDevices := ObtainActiveDevices(tool, choice.deviceClass);
    var allDevices := ObtainAllDevices(tool, choice.deviceClass);
    var disconnected := Reconcile(activeDevices, allDevices);
    var removedCount, failures, removals := RemoveDisconnectedDevices(tool, disconnected);
    var queries := [ActiveDevicesCommand(choice.deviceClass), AllDevicesCommand(choice.deviceClass)];
    summary := RunSummary(choice, disconnected, removedCount, failures, MessageFor(removedCount), queries + removals);
  }

  /** A run on the default class with port COM3 present and COM3 and COM5 registered: COM5 is the
      only disconnected device, its removal succeeds, nothing is reported and the singular summary
      is chosen. */
  lemma EndToEndExample(tool: Tool)
    requires tool(ActiveDevicesCommand("ports")) == "COM3"
    requires tool(AllDevicesCommand("ports")) == "COM3 : Serial Port\nCOM5 : Modem"
    requires tool(RemoveCommand("COM5")) == "1 device(s) were removed."
    ensures var c := PromptDeviceClass("").deviceClass; DisconnectedDevices(tool, c) == ["COM5"]
    ensures var c := PromptDeviceClass("").deviceClass; |Filter(DisconnectedDevices(tool, c), Succeeds(tool))| == 1
    ensures var c := PromptDeviceClass("").deviceClass; Filter(DisconnectedDevices(tool, c), Fails(tool)) == []
    ensures var c := PromptDeviceClass("").deviceClass;
      MessageFor(|Filter(DisconnectedDevices(tool, c), Succeeds(tool))|) == OneDeviceRemoved
  {
    PromptExamples();
    var active := tool(ActiveDevicesCommand("ports"));
    assert NewLines.HasNoLineBreak(active) && active != [] && Text.HasNoWhiteSpace(active);
    OneLineOutput(active);
    TwoDeviceLinesExample(tool(AllDevicesCommand("ports")));
    ReconcileExample();
    assert DisconnectedDevices(tool, "ports") == ["COM5"];
    RemovalOutcomeExamples();
    assert RemoveDevice(tool, "COM5");
  }

  /** COM3 and COM5 present, with a blank line between them; COM3, COM5 and COM7 registered;
      COM7's removal succeeds. COM7 is the only disconnected device, it is removed, nothing is
      reported and the singular summary is chosen. */
  lemma BlankLinePresentThreeRegisteredExample(tool: Tool)
    requires tool(ActiveDevicesCommand("ports")) == "COM3\n\nCOM5"
    requires tool(AllDevicesCommand("ports")) == "COM3 : Foo\nCOM5 : Bar\nCOM7 : Baz"
    requires tool(RemoveCommand("COM7")) == "1 device(s) were removed."
    ensures var c := PromptDeviceClass("").deviceClass; DisconnectedDevices(tool, c) == ["COM7"]
    ensures var c := PromptDeviceClass("").deviceClass; |Filter(DisconnectedDevices(tool, c), Succeeds(tool))| == 1
    ensures var c := PromptDeviceClass("").deviceClass; Filter(DisconnectedDevices(tool, c), Fails(tool)) == []
    ensures var c := PromptDeviceClass("").deviceClass;
      MessageFor(|Filter(DisconnectedDevices(tool, c), Succeeds(tool))|) == OneDeviceRemoved
  {
    PromptExamples();
    BlankLineSkippedExample();
    ThreeDeviceLinesExample(tool(AllDevicesCommand("ports")));
    ReconcileExample();
    assert DisconnectedDevices(tool, "ports") == ["COM7"];
    RemovalOutcomeExamples();
    assert RemoveDevice(tool, "COM7");
  }
}
