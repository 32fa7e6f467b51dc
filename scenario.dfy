/** A concrete host and the tree `list` prints for it: bus 1 has one hub,
    on port 1, with four individually powered ports; port 2 holds a
    device that is not a hub and the other ports are empty. */
module Scenario {
  import opened UsbBase
  import opened PortStatusWord
  import opened HubDescriptors
  import opened Hubs
  import opened Topology
  import Text

  const HubInfo: DeviceInfo :=
    DeviceInfo(1, 2, 0x1d6b, 0x0002, DEVICE_CLASS_HUB, 0, 0, 0x0100, None, None, None, [1])
  const MouseInfo: DeviceInfo :=
    DeviceInfo(1, 3, 0x046d, 0xc077, 0, 0, 0, 0x0100, None, Some("Mouse"), None, [1, 2])
  const HubKey: Key := [1, 1]
  const MouseKey: Key := [1, 1, 2]

  /** The 9-byte hub descriptor: four ports, characteristics 0x0001
      (individual port power switching). */
  const DescriptorReply: seq<u8> := [9, 0x29, 4, 0x01, 0x00, 50, 100, 0, 0xff]
  /** Port status words: powered and empty, powered and connected. */
  const EmptyPortReply: seq<u8> := [0x00, 0x01, 0x00, 0x00]
  const ConnectedPortReply: seq<u8> := [0x01, 0x01, 0x00, 0x00]

  /** The hub's replies: its descriptor, a connection on port 2 only, and
      a failed BOS read (a USB 2.0 hub without a BOS). */
  function HubReply(request: InRequest): InReply {
    if request == HubDescriptorRequest(false) then Received(DescriptorReply)
    else if request == BosRequest() then TransferFailed(Fault)
    else if request == PortStatusRequest(2) then Received(ConnectedPortReply)
    else Received(EmptyPortReply)
  }

  function HubDevice(): UsbDevice {
    UsbDevice(0x0200, HubReply, _ => None)
  }

  function ExampleHost(): Host {
    Host(_ => Opened(HubDevice()))
  }

  function Devices(): DeviceMap {
    map[HubKey := HubInfo, MouseKey := MouseInfo]
  }

  function ExampleHub(): Hub {
    Hub(HubInfo, HubDescriptor(4, 0x0001), false, None)
  }

  function EmptyPort(): PortStatus { FromField(0x0100, false) }
  function ConnectedPort(): PortStatus { FromField(0x0101, false) }

  /** The enumeration builds the map of the two devices. */
  lemma ExampleMap()
    ensures MapOf([HubInfo, MouseInfo]) == Devices()
  {
    assert KeyOf(HubInfo) == HubKey && KeyOf(MouseInfo) == MouseKey;
    assert [HubInfo, MouseInfo][..1] == [HubInfo];
    assert [HubInfo][..0] == [];
    assert MapOf([HubInfo]) == map[HubKey := HubInfo];
  }

  /** The hub opens as a USB 2.0 hub of four ports, switched per port,
      without a Container ID. */
  lemma ExampleHubOpens()
    ensures HubOf(HubInfo, ExampleHost().open(HubInfo)) == Ok(ExampleHub())
    ensures LogicalPowerSwitchingModeOf(ExampleHub().descriptor) == IndividualPort
  {
    assert GetHubDescription(HubDevice(), false) == Ok(HubDescriptor(4, 0x0001));
    assert BosRequest() != HubDescriptorRequest(false);
    assert BosBytesOf(HubDevice()).Err?;
  }

  /** Switching port 2 off sends the PORT_POWER clear request, and port 5
      is refused. */
  lemma ExampleSwitch()
    ensures SetPortPower(ExampleHub(), HubDevice(), 2, false) == Ok(PortPowerRequest(2, false))
    ensures SetPortPower(ExampleHub(), HubDevice(), 5, true) == Err(InvalidPort)
  {
    ExampleHubOpens();
  }

  /** The hub line shows the hub as `1.1`. */
  lemma ExampleKeyText()
    ensures KeyText(HubInfo) == "1.1"
  {
    assert Text.ToDecimal(1) == "1";
    assert Text.Decimals([1]) == ["1"];
  }

  lemma PortStatuses(port: u8)
    requires 1 <= port <= 4
    ensures port == 2 ==> GetPortStatus(ExampleHub(), HubDevice(), port) == Ok(ConnectedPort())
    ensures port != 2 ==> GetPortStatus(ExampleHub(), HubDevice(), port) == Ok(EmptyPort())
    ensures ConnectedPort().Connection() && !EmptyPort().Connection()
  {
    var request := PortStatusRequest(port);
    assert request != HubDescriptorRequest(false) && request != BosRequest();
    assert FromLeBytes(0x00, 0x01) == 0x0100 && FromLeBytes(0x01, 0x01) == 0x0101;
  }

  /** An empty port: its status line and a line break. */
  lemma EmptyPortEntry(port: u8)
    requires port == 1 || port == 3 || port == 4
    ensures PortEntry(HubKey, ExampleHub(), HubDevice(), 0, port, Devices(), ExampleHost()) ==
            Run([PortLine(0, port, EmptyPort()), Newline], Done)
  {
    PortStatuses(port);
    PortEntryCases(HubKey, ExampleHub(), HubDevice(), 0, port, Devices(), ExampleHost());
  }

  /** Port 2: its status line, then the device line and a line break. */
  lemma ConnectedPortEntry()
    ensures PortEntry(HubKey, ExampleHub(), HubDevice(), 0, 2, Devices(), ExampleHost()) ==
            Run([PortLine(0, 2, ConnectedPort()), DeviceLine(MouseInfo), Newline], Done)
  {
    PortStatuses(2);
    PortEntryCases(HubKey, ExampleHub(), HubDevice(), 0, 2, Devices(), ExampleHost());
    assert HubKey + [2] == MouseKey;
  }

  function PortEvents(): seq<Event> {
    [PortLine(0, 1, EmptyPort()), Newline,
     PortLine(0, 2, ConnectedPort()), DeviceLine(MouseInfo), Newline,
     PortLine(0, 3, EmptyPort()), Newline,
     PortLine(0, 4, EmptyPort()), Newline]
  }

  /** One more port of the example hub, after the earlier ports ended
      normally with `before`. */
  lemma ExampleStep(n: u8, before: seq<Event>, entry: seq<Event>)
    requires 1 <= n <= 4
    requires PortsSpec(HubKey, ExampleHub(), HubDevice(), 0, n - 1, Devices(), ExampleHost()) == Run(before, Done)
    requires PortEntry(HubKey, ExampleHub(), HubDevice(), 0, n, Devices(), ExampleHost()) == Run(entry, Done)
    ensures PortsSpec(HubKey, ExampleHub(), HubDevice(), 0, n, Devices(), ExampleHost()) == Run(before + entry, Done)
  {
    PortsStep(HubKey, ExampleHub(), HubDevice(), 0, n, Devices(), ExampleHost());
  }

  lemma ExamplePorts()
    ensures PortsSpec(HubKey, ExampleHub(), HubDevice(), 0, 4, Devices(), ExampleHost()) == Run(PortEvents(), Done)
  {
    var one := [PortLine(0, 1, EmptyPort()), Newline];
    var two := [PortLine(0, 2, ConnectedPort()), DeviceLine(MouseInfo), Newline];
    var three := [PortLine(0, 3, EmptyPort()), Newline];
    var four := [PortLine(0, 4, EmptyPort()), Newline];
    EmptyPortEntry(1);
    ConnectedPortEntry();
    EmptyPortEntry(3);
    EmptyPortEntry(4);
    ExampleStep(1, [], one);
    ExampleStep(2, [] + one, two);
    ExampleStep(3, [] + one + two, three);
    ExampleStep(4, [] + one + two + three, four);
    assert [] + one + two + three + four == PortEvents();
  }

  /** The walk of the hub: its line, then the entries of ports 1 to 4. */
  lemma ExampleWalk()
    ensures DescribeHubSpec(HubKey, Devices(), ExampleHost()) ==
            Run([HubLine(KeyText(HubInfo), HubInfo, 4, None)] + PortEvents(), Done)
  {
    ExampleHubOpens();
    ExamplePorts();
    assert Indent(HubInfo) == 0;
  }

  /** The map is iterated hub first, then the device on its port 2. */
  lemma ExampleOrder()
    ensures Ascending(Devices().Keys) == [HubKey, MouseKey]
  {
    var keys := Devices().Keys;
    assert keys == {HubKey, MouseKey};
    assert MouseKey[..2] == HubKey;
    PrefixComesFirst(HubKey, MouseKey);
    assert IsLeast(HubKey, keys);
    AscendingFirst(keys, HubKey);
    assert keys - {HubKey} == {MouseKey};
    assert IsLeast(MouseKey, {MouseKey});
    AscendingFirst({MouseKey}, MouseKey);
    assert {MouseKey} - {MouseKey} == {};
  }

  /** `list` starts a walk at the hub and none at the device. */
  lemma ExampleRootWalks()
    ensures RootWalk(HubKey, Devices(), ExampleHost()) ==
            Run([HubLine(KeyText(HubInfo), HubInfo, 4, None)] + PortEvents(), Done)
    ensures RootWalk(MouseKey, Devices(), ExampleHost()) == Run([], Done)
  {
    assert IsRoot(HubKey, Devices()) && !IsRoot(MouseKey, Devices());
    ExampleWalk();
  }

  /** The iteration over the two keys in order. */
  lemma ExampleIteration()
    ensures ListOver([HubKey, MouseKey], Devices(), ExampleHost()) ==
            Run([HubLine(KeyText(HubInfo), HubInfo, 4, None)] + PortEvents(), Done)
  {
    var m, host := Devices(), ExampleHost();
    var walk := [HubLine(KeyText(HubInfo), HubInfo, 4, None)] + PortEvents();
    ExampleRootWalks();
    assert ListOver([], m, host) == Run([], Done);
    ListOverStep([], HubKey, m, host);
    assert [] + [HubKey] == [HubKey];
    assert ListOver([HubKey], m, host) == Run([] + walk, Done);
    ListOverStep([HubKey], MouseKey, m, host);
    assert [HubKey] + [MouseKey] == [HubKey, MouseKey];
    assert [] + walk + [] == walk;
  }

  /** `list` on this host prints one hub line and four port lines, and
      only the line of port 2 goes on with a device line. */
  lemma ListExample()
    ensures ListOf(Devices(), ExampleHost()) ==
            Printed([HubLine(KeyText(HubInfo), HubInfo, 4, None)] + PortEvents())
  {
    ExampleOrder();
    ExampleIteration();
  }
}
