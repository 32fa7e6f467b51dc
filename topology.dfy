/** The command-line tool's picture of the bus: the map from device key
    (`[busnum] ++ port_chain`) to device, iterated in the key order of an
    ordered map, and the depth-first walk that renders each root hub with
    its ports and, recursively, the hubs below it. The rendering is a
    sequence of abstract line events rather than text. */
module Topology {
  import opened UsbBase
  import opened PortStatusWord
  import opened HubDescriptors
  import opened Hubs
  import Text

  type Key = seq<u8>
  type DeviceMap = map<Key, DeviceInfo>

  /** The key a device is stored under. */
  function KeyOf(info: DeviceInfo): (k: Key)
    ensures |k| == |info.portChain| + 1 && k[0] == info.busnum && k[1..] == info.portChain
  {
    [info.busnum] + info.portChain
  }

  // ---------------------------------------------------------------------
  // Building the map

  /** The map after inserting the devices in enumeration order; a later
      device replaces an earlier one with the same key. */
  function MapOf(devices: seq<DeviceInfo>): DeviceMap
    decreases |devices|
  {
    if |devices| == 0 then map[]
    else MapOf(devices[..|devices| - 1])[KeyOf(devices[|devices| - 1]) := devices[|devices| - 1]]
  }

  /** The loop in `main` that fills the map. */
  method BuildDeviceMap(devices: seq<DeviceInfo>) returns (m: DeviceMap)
    ensures m == MapOf(devices)
  {
    m := map[];
    for i := 0 to |devices|
      invariant m == MapOf(devices[..i])
    {
      assert devices[..i + 1][..i] == devices[..i];
      m := m[KeyOf(devices[i]) := devices[i]];
    }
    assert devices[..|devices|] == devices;
  }

  /** A key is in the map exactly when some device has it, and it maps to
      the last such device. */
  lemma {:induction false} MapOfLookup(devices: seq<DeviceInfo>, k: Key)
    ensures k in MapOf(devices) <==> exists i :: 0 <= i < |devices| && KeyOf(devices[i]) == k
    ensures k in MapOf(devices) ==>
              exists i :: && 0 <= i < |devices| && devices[i] == MapOf(devices)[k] && KeyOf(devices[i]) == k
                          && forall j :: i < j < |devices| ==> KeyOf(devices[j]) != k
    decreases |devices|
  {
    if |devices| > 0 {
      var n := |devices| - 1;
      var front := devices[..n];
      MapOfLookup(front, k);
      assert forall i :: 0 <= i < n ==> front[i] == devices[i];
      if KeyOf(devices[n]) != k && k in MapOf(devices) {
        var i :| && 0 <= i < n && front[i] == MapOf(front)[k] && KeyOf(front[i]) == k
                 && forall j :: i < j < n ==> KeyOf(front[j]) != k;
        assert forall j :: i < j < |devices| ==> KeyOf(devices[j]) != k;
      }
    }
  }

  // ---------------------------------------------------------------------
  // The key order of the ordered map: lexicographic, a prefix first

  predicate KeyLess(a: Key, b: Key)
    decreases |a|
  {
    if |a| == 0 then |b| > 0
    else |b| > 0 && (a[0] < b[0] || (a[0] == b[0] && KeyLess(a[1..], b[1..])))
  }

  lemma {:induction false} KeyLessIrreflexive(a: Key)
    ensures !KeyLess(a, a)
    decreases |a|
  {
    if |a| > 0 {
      KeyLessIrreflexive(a[1..]);
    }
  }

  lemma {:induction false} KeyLessTransitive(a: Key, b: Key, c: Key)
    requires KeyLess(a, b) && KeyLess(b, c)
    ensures KeyLess(a, c)
    decreases |a|
  {
    if |a| > 0 && a[0] == b[0] && b[0] == c[0] {
      KeyLessTransitive(a[1..], b[1..], c[1..]);
    }
  }

  lemma {:induction false} KeyLessTotal(a: Key, b: Key)
    ensures a == b || KeyLess(a, b) || KeyLess(b, a)
    decreases |a|
  {
    if |a| > 0 && |b| > 0 && a[0] == b[0] {
      KeyLessTotal(a[1..], b[1..]);
      if a[1..] == b[1..] {
        assert a == [a[0]] + a[1..] && b == [b[0]] + b[1..];
      }
    }
  }

  /** A hub's key comes before the key of every device below it. */
  lemma {:induction false} PrefixComesFirst(a: Key, b: Key)
    requires |a| < |b| && b[..|a|] == a
    ensures KeyLess(a, b)
    decreases |a|
  {
    if |a| > 0 {
      assert b[1..][..|a| - 1] == a[1..];
      PrefixComesFirst(a[1..], b[1..]);
    }
  }

  predicate IsLeast(k: Key, s: set<Key>) {
    k in s && forall j :: j in s && j != k ==> KeyLess(k, j)
  }

  lemma {:induction false} LeastExists(s: set<Key>)
    requires s != {}
    ensures exists k :: IsLeast(k, s)
    decreases s
  {
    var x :| x in s;
    if s != {x} {
      var rest := s - {x};
      LeastExists(rest);
      var k :| IsLeast(k, rest);
      KeyLessTotal(x, k);
      if KeyLess(x, k) {
        forall j | j in s && j != x
          ensures KeyLess(x, j)
        {
          if j != k {
            KeyLessTransitive(x, k, j);
          }
        }
        assert IsLeast(x, s);
      } else {
        assert IsLeast(k, s);
      }
    } else {
      assert IsLeast(x, s);
    }
  }

  lemma LeastUnique(k: Key, k': Key, s: set<Key>)
    requires IsLeast(k, s) && IsLeast(k', s)
    ensures k == k'
  {
    if k != k' {
      KeyLessTransitive(k, k', k);
      KeyLessIrreflexive(k);
    }
  }

  /** The keys of a set in ascending order: the order in which the ordered
      map is iterated. */
  ghost function Ascending(s: set<Key>): seq<Key>
    decreases s
  {
    if s == {} then []
    else
      LeastExists(s);
      var k :| IsLeast(k, s);
      [k] + Ascending(s - {k})
  }

  lemma AscendingFirst(s: set<Key>, k: Key)
    requires IsLeast(k, s)
    ensures Ascending(s) == [k] + Ascending(s - {k})
  {
    LeastExists(s);
    var k' :| IsLeast(k', s) && Ascending(s) == [k'] + Ascending(s - {k'});
    LeastUnique(k, k', s);
  }

  /** The iteration order visits every key once, in strictly ascending
      order. */
  lemma {:induction false} AscendingSorted(s: set<Key>)
    ensures |Ascending(s)| == |s|
    ensures forall k :: k in Ascending(s) <==> k in s
    ensures forall i, j :: 0 <= i < j < |Ascending(s)| ==> KeyLess(Ascending(s)[i], Ascending(s)[j])
    decreases s
  {
    if s != {} {
      LeastExists(s);
      var k :| IsLeast(k, s);
      AscendingFirst(s, k);
      AscendingSorted(s - {k});
      var ks := Ascending(s);
      assert ks[1..] == Ascending(s - {k});
      forall i, j | 0 <= i < j < |ks|
        ensures KeyLess(ks[i], ks[j])
      {
        if i == 0 {
          assert ks[j] == ks[1..][j - 1];
          assert ks[j] in s - {k};
        } else {
          assert ks[i] == ks[1..][i - 1] && ks[j] == ks[1..][j - 1];
        }
      }
    }
  }

  /** The example orders: [1,2] before [1,2,1] before [1,3]. */
  lemma KeyOrderExample()
    ensures KeyLess([1, 2], [1, 2, 1]) && KeyLess([1, 2, 1], [1, 3])
  {
    assert [1, 2, 1][..2] == [1, 2];
    PrefixComesFirst([1, 2], [1, 2, 1]);
    assert KeyLess([2, 1], [3]);
  }

  // ---------------------------------------------------------------------
  // Rendering

  /** One line of output, or a line break. A port line and a device line
      are written without a line break; a hub line ends with one. */
  datatype Event =
    | HubLine(keyText: string, info: DeviceInfo, portCount: u8, containerId: Option<seq<u8>>)
    | PortLine(indent: nat, port: u8, status: PortStatus)
    | DeviceLine(info: DeviceInfo)
    | Newline

  /** How a walk ended: normally, with a propagated error, or by a panic. */
  datatype Status = Done | Failed(error: Error) | Panicked

  /** The events a walk wrote, and how it ended. */
  datatype Run = Run(events: seq<Event>, status: Status)

  /** The hub's location as the hub line prints it: the bus number, a dot,
      then the port chain joined by dashes. */
  function KeyText(info: DeviceInfo): (s: string)
    ensures |Text.ToDecimal(info.busnum)| < |s| && s[|Text.ToDecimal(info.busnum)|] == '.'
  {
    Text.ToDecimal(info.busnum) + "." + Text.Join(Text.Decimals(info.portChain), '-')
  }

  /** The key text reads back: the bus number before the dot, and after
      it the decimal port numbers, which split back on the dashes. */
  lemma KeyTextReadsBack(info: DeviceInfo)
    requires |info.portChain| >= 1
    ensures var bus := Text.ToDecimal(info.busnum);
            var s := KeyText(info);
            && s[..|bus|] == bus
            && Text.Split(s[|bus| + 1..], '-') == Text.Decimals(info.portChain)
  {
    var bus := Text.ToDecimal(info.busnum);
    var chain := Text.Join(Text.Decimals(info.portChain), '-');
    assert KeyText(info)[|bus| + 1..] == chain;
    assert KeyText(info)[..|bus|] == bus;
    Text.SplitJoin(Text.Decimals(info.portChain), '-');
  }

  /** Indentation of a hub's port lines: two columns per level below the
      first, saturating at zero. */
  function Indent(info: DeviceInfo): (n: nat)
    ensures n % 2 == 0
    ensures n == 0 <==> |info.portChain| <= 1
    ensures |info.portChain| >= 1 ==> n == 2 * (|info.portChain| - 1)
  {
    (if |info.portChain| == 0 then 0 else |info.portChain| - 1) * 2
  }

  /** `describe_device`: one line for a device of the map, nothing for an
      absent key. */
  function DescribeDevice(key: Key, m: DeviceMap): (events: seq<Event>)
    ensures |events| <= 1
    ensures events != [] <==> key in m
    ensures forall e :: e in events ==> key in m && e == DeviceLine(m[key])
  {
    if key in m then [DeviceLine(m[key])] else []
  }

  /** The map's keys at least `n` long: the walk's termination measure,
      since each level of recursion adds one port to the key. */
  function Deeper(m: DeviceMap, n: nat): set<Key> {
    set k | k in m && |k| >= n
  }

  lemma DeeperShrinks(m: DeviceMap, key: Key)
    requires key in m
    ensures Deeper(m, |key| + 1) < Deeper(m, |key|)
  {
    assert key in Deeper(m, |key|) && key !in Deeper(m, |key| + 1);
  }

  /** `describe_hub` at `key`: nothing for a key absent from the map;
      otherwise the hub is opened (an error or panic ends the walk with
      nothing written), its line is written, then one entry per port. */
  function DescribeHubSpec(key: Key, m: DeviceMap, host: Host): Run
    decreases Deeper(m, |key|), 2, 0
  {
    if key !in m then Run([], Done)
    else
      var info := m[key];
      match HubOf(info, host.open(info))
      case Err(e) => Run([], Failed(e))
      case Panic => Run([], Panicked)
      case Ok(hub) =>
        var ports := PortsSpec(key, hub, host.open(info).device, Indent(info), hub.PortCount(), m, host);
        Run([HubLine(KeyText(info), info, hub.PortCount(), hub.containerId)] + ports.events, ports.status)
  }

  /** The entries of ports 1 to `n` in increasing order; the walk stops at
      the first entry that fails. */
  function PortsSpec(key: Key, hub: Hub, device: UsbDevice, indent: nat, n: u8, m: DeviceMap, host: Host): Run
    requires key in m
    decreases Deeper(m, |key|), 1, n
  {
    if n == 0 then Run([], Done)
    else
      var before := PortsSpec(key, hub, device, indent, n - 1, m, host);
      if before.status != Done then before
      else
        var entry := PortEntry(key, hub, device, indent, n, m, host);
        Run(before.events + entry.events, entry.status)
  }

  /** The entry of one port: its status line if the status was read,
      then a line break for a port that reports no connection, or the
      child entry for a connected port. A failed status query counts as
      connected and writes no status line. */
  function PortEntry(key: Key, hub: Hub, device: UsbDevice, indent: nat, port: u8, m: DeviceMap, host: Host): Run
    requires key in m
    decreases Deeper(m, |key|), 0, 1
  {
    var status := GetPortStatus(hub, device, port);
    var line := if status.Ok? then [PortLine(indent, port, status.value)] else [];
    var connection := if status.Ok? then status.value.Connection() else true;
    var child := if connection then ChildEntry(key, port, m, host) else Run([Newline], Done);
    Run(line + child.events, child.status)
  }

  /** What a connected port adds after its status line: a line break when
      no device has the port's key, the device line and a line break for a
      device that is not a hub, the walk of a hub. */
  function ChildEntry(key: Key, port: u8, m: DeviceMap, host: Host): Run
    requires key in m
    decreases Deeper(m, |key|), 0, 0
  {
    var portKey := key + [port];
    if portKey !in m then Run([Newline], Done)
    else if m[portKey].deviceClass != DEVICE_CLASS_HUB then Run(DescribeDevice(portKey, m) + [Newline], Done)
    else
      DeeperShrinks(m, key);
      DescribeHubSpec(portKey, m, host)
  }

  /** The cases of one port entry. */
  lemma PortEntryCases(key: Key, hub: Hub, device: UsbDevice, indent: nat, port: u8, m: DeviceMap, host: Host)
    requires key in m
    ensures var status := GetPortStatus(hub, device, port);
            var entry := PortEntry(key, hub, device, indent, port, m, host);
            var child := ChildEntry(key, port, m, host);
            && (status.Ok? && !status.value.Connection() ==>
                  entry == Run([PortLine(indent, port, status.value), Newline], Done))
            && (status.Ok? && status.value.Connection() ==>
                  entry == Run([PortLine(indent, port, status.value)] + child.events, child.status))
            && (!status.Ok? ==> entry == child)
    ensures var portKey := key + [port];
            var child := ChildEntry(key, port, m, host);
            && (portKey !in m ==> child == Run([Newline], Done))
            && (portKey in m && m[portKey].deviceClass != DEVICE_CLASS_HUB ==>
                  child == Run([DeviceLine(m[portKey]), Newline], Done))
            && (portKey in m && m[portKey].deviceClass == DEVICE_CLASS_HUB ==>
                  child == DescribeHubSpec(portKey, m, host))
  {
    assert [] + ChildEntry(key, port, m, host).events == ChildEntry(key, port, m, host).events;
  }

  /** A port that reports no connection is not looked up: its entry is
      the same whatever the map holds under the port's key. */
  lemma UnconnectedPortNotLookedUp(key: Key, hub: Hub, device: UsbDevice, indent: nat, port: u8,
                                   m: DeviceMap, host: Host, child: DeviceInfo)
    requires key in m
    requires GetPortStatus(hub, device, port).Ok? && !GetPortStatus(hub, device, port).value.Connection()
    ensures key in m[key + [port] := child]
    ensures PortEntry(key, hub, device, indent, port, m, host) ==
            PortEntry(key, hub, device, indent, port, m[key + [port] := child], host)
    ensures PortEntry(key, hub, device, indent, port, m, host).events ==
            [PortLine(indent, port, GetPortStatus(hub, device, port).value), Newline]
  {
  }

  /** One more port entry, after ports 1 to `n - 1` ended normally. */
  lemma PortsStep(key: Key, hub: Hub, device: UsbDevice, indent: nat, n: u8, m: DeviceMap, host: Host)
    requires key in m && n >= 1
    requires PortsSpec(key, hub, device, indent, n - 1, m, host).status == Done
    ensures PortsSpec(key, hub, device, indent, n, m, host) ==
            Run(PortsSpec(key, hub, device, indent, n - 1, m, host).events +
                PortEntry(key, hub, device, indent, n, m, host).events,
                PortEntry(key, hub, device, indent, n, m, host).status)
  {
  }

  /** Once a port entry fails, later ports add nothing. */
  lemma {:induction false} PortsStop(key: Key, hub: Hub, device: UsbDevice, indent: nat, p: u8, n: u8, m: DeviceMap, host: Host)
    requires key in m && p <= n
    requires PortsSpec(key, hub, device, indent, p, m, host).status != Done
    ensures PortsSpec(key, hub, device, indent, n, m, host) == PortsSpec(key, hub, device, indent, p, m, host)
    decreases n
  {
    if n > p {
      PortsStop(key, hub, device, indent, p, n - 1, m, host);
    }
  }

  lemma Associative(a: seq<Event>, b: seq<Event>, c: seq<Event>)
    ensures a + b + c == a + (b + c)
  {
  }

  /** The writer the rendering goes to (`&mut W` in the tool). */
  class Output {
    var events: seq<Event>

    constructor ()
      ensures events == []
    {
      events := [];
    }

    method Write(more: seq<Event>)
      modifies this
      ensures events == old(events) + more
    {
      events := events + more;
    }
  }

  /** `describe_hub`: writes to `output` what `DescribeHubSpec` describes
      and returns how the walk ended. */
  method DescribeHub(output: Output, key: Key, m: DeviceMap, host: Host) returns (status: Status)
    modifies output
    ensures output.events == old(output.events) + DescribeHubSpec(key, m, host).events
    ensures status == DescribeHubSpec(key, m, host).status
    decreases Deeper(m, |key|), 3
  {
    if key !in m {
      return Done;
    }
    var info := m[key];
    var openResult := host.open(info);
    var created := FromDeviceInfo(info, openResult);
    if created.Err? {
      return Failed(created.error);
    }
    if created.Panic? {
      return Panicked;
    }
    var hub := created.value;
    output.Write([HubLine(KeyText(info), info, hub.PortCount(), hub.containerId)]);
    status := WritePorts(output, key, hub, openResult.device, Indent(info), m, host);
  }

  /** The port loop of `describe_hub`: the entries of ports 1 to the port
      count, in increasing order, stopping at the first that fails. */
  method WritePorts(output: Output, key: Key, hub: Hub, device: UsbDevice, align: nat,
                    m: DeviceMap, host: Host) returns (status: Status)
    requires key in m
    modifies output
    ensures output.events == old(output.events) + PortsSpec(key, hub, device, align, hub.PortCount(), m, host).events
    ensures status == PortsSpec(key, hub, device, align, hub.PortCount(), m, host).status
    decreases Deeper(m, |key|), 2
  {
    ghost var start := output.events;
    var port: nat := 1;
    while port <= hub.PortCount()
      invariant 1 <= port <= hub.PortCount() + 1
      invariant PortsSpec(key, hub, device, align, port - 1, m, host).status == Done
      invariant output.events == start + PortsSpec(key, hub, device, align, port - 1, m, host).events
    {
      ghost var before := PortsSpec(key, hub, device, align, port - 1, m, host).events;
      var sub := WritePortEntry(output, key, hub, device, align, port, m, host);
      ghost var entry := PortEntry(key, hub, device, align, port, m, host);
      PortsStep(key, hub, device, align, port, m, host);
      Associative(start, before, entry.events);
      if sub != Done {
        PortsStop(key, hub, device, align, port, hub.PortCount(), m, host);
        return sub;
      }
      port := port + 1;
    }
    return Done;
  }

  /** The body of the port loop of `describe_hub`: writes the entry of one
      port as `PortEntry` describes it. */
  method WritePortEntry(output: Output, key: Key, hub: Hub, device: UsbDevice, align: nat, port: u8,
                        m: DeviceMap, host: Host) returns (status: Status)
    requires key in m
    modifies output
    ensures output.events == old(output.events) + PortEntry(key, hub, device, align, port, m, host).events
    ensures status == PortEntry(key, hub, device, align, port, m, host).status
    decreases Deeper(m, |key|), 1
  {
    var portStatus := GetPortStatus(hub, device, port);
    var line: seq<Event> := [];
    var connection := true;
    if portStatus.Ok? {
      line := [PortLine(align, port, portStatus.value)];
      connection := portStatus.value.Connection();
    }
    ghost var start := output.events;
    output.Write(line);
    if !connection {
      output.Write([Newline]);
      Associative(start, line, [Newline]);
      return Done;
    }
    status := WriteChild(output, key, port, m, host);
    Associative(start, line, ChildEntry(key, port, m, host).events);
  }

  /** The connected-port part of the loop body: looks the port's key up
      and describes the device found, recursing into a hub. */
  method WriteChild(output: Output, key: Key, port: u8, m: DeviceMap, host: Host) returns (status: Status)
    requires key in m
    modifies output
    ensures output.events == old(output.events) + ChildEntry(key, port, m, host).events
    ensures status == ChildEntry(key, port, m, host).status
    decreases Deeper(m, |key|), 0
  {
    var portKey := key + [port];
    if portKey !in m {
      output.Write([Newline]);
      return Done;
    }
    if m[portKey].deviceClass != DEVICE_CLASS_HUB {
      output.Write(DescribeDevice(portKey, m));
      output.Write([Newline]);
      return Done;
    }
    DeeperShrinks(m, key);
    status := DescribeHub(output, portKey, m, host);
  }

  // ---------------------------------------------------------------------
  // Listing

  /** A root of the rendering: a key of length 2 whose device is a hub. */
  predicate IsRoot(key: Key, m: DeviceMap) {
    |key| == 2 && key in m && m[key].deviceClass == DEVICE_CLASS_HUB
  }

  /** The iteration of `list` over keys `ks`, left to right: each root
      hub is walked, and the first walk that does not end normally ends
      the iteration. */
  function ListOver(ks: seq<Key>, m: DeviceMap, host: Host): Run
    decreases |ks|
  {
    if |ks| == 0 then Run([], Done)
    else
      var before := ListOver(ks[..|ks| - 1], m, host);
      var key := ks[|ks| - 1];
      if before.status != Done then before
      else
        var walk := RootWalk(key, m, host);
        Run(before.events + walk.events, walk.status)
  }

  /** The walk `list` starts at one key: the hub's walk at a root, nothing
      elsewhere. */
  function RootWalk(key: Key, m: DeviceMap, host: Host): Run {
    if IsRoot(key, m) then DescribeHubSpec(key, m, host) else Run([], Done)
  }

  /** The body of the loop of `list`. */
  method WriteRoot(buffer: Output, key: Key, m: DeviceMap, host: Host) returns (status: Status)
    requires key in m
    modifies buffer
    ensures buffer.events == old(buffer.events) + RootWalk(key, m, host).events
    ensures status == RootWalk(key, m, host).status
  {
    if |key| == 2 && m[key].deviceClass == DEVICE_CLASS_HUB {
      status := DescribeHub(buffer, key, m, host);
    } else {
      status := Done;
      assert buffer.events == old(buffer.events) + [];
    }
  }

  lemma {:induction false} ListStops(ks: seq<Key>, more: seq<Key>, m: DeviceMap, host: Host)
    requires ListOver(ks, m, host).status != Done
    ensures ListOver(ks + more, m, host) == ListOver(ks, m, host)
    decreases |more|
  {
    if |more| > 0 {
      var front := more[..|more| - 1];
      assert (ks + more)[..|ks + more| - 1] == ks + front;
      ListStops(ks, front, m, host);
    } else {
      assert ks + more == ks;
    }
  }

  /** One more key of the iteration. */
  lemma ListOverStep(ks: seq<Key>, key: Key, m: DeviceMap, host: Host)
    ensures var before := ListOver(ks, m, host);
            ListOver(ks + [key], m, host) ==
              if before.status != Done then before
              else Run(before.events + RootWalk(key, m, host).events, RootWalk(key, m, host).status)
  {
    assert (ks + [key])[..|ks|] == ks;
  }

  /** The least remaining key is the next key of the iteration. */
  lemma ListAdvance(done: seq<Key>, rest: set<Key>, key: Key, m: DeviceMap, host: Host)
    requires IsLeast(key, rest) && done + Ascending(rest) == Ascending(m.Keys)
    ensures done + [key] + Ascending(rest - {key}) == Ascending(m.Keys)
    ensures var before := ListOver(done, m, host);
            ListOver(done + [key], m, host) ==
              if before.status != Done then before
              else Run(before.events + RootWalk(key, m, host).events, RootWalk(key, m, host).status)
  {
    AscendingFirst(rest, key);
    ListOverStep(done, key, m, host);
    assert done + [key] + Ascending(rest - {key}) == done + ([key] + Ascending(rest - {key}));
  }

  /** What `list` ends with: the buffer printed, or an error or panic
      with nothing printed. */
  datatype ListResult = Printed(events: seq<Event>) | ListFailed(error: Error) | ListPanicked

  ghost function ListOf(m: DeviceMap, host: Host): ListResult {
    var run := ListOver(Ascending(m.Keys), m, host);
    match run.status
    case Done => Printed(run.events)
    case Failed(e) => ListFailed(e)
    case Panicked => ListPanicked
  }

  /** `list`: walks the root hubs in key order into one buffer, and prints
      it only if every walk ended normally. */
  method List(m: DeviceMap, host: Host) returns (r: ListResult)
    ensures r == ListOf(m, host)
  {
    var buffer := new Output();
    var rest := m.Keys;
    ghost var done: seq<Key> := [];
    while rest != {}
      invariant rest <= m.Keys
      invariant done + Ascending(rest) == Ascending(m.Keys)
      invariant ListOver(done, m, host).status == Done
      invariant buffer.events == ListOver(done, m, host).events
      decreases rest
    {
      LeastExists(rest);
      var key :| IsLeast(key, rest);
      ListAdvance(done, rest, key, m, host);
      var status := WriteRoot(buffer, key, m, host);
      if status != Done {
        ListStops(done + [key], Ascending(rest - {key}), m, host);
        return if status.Failed? then ListFailed(status.error) else ListPanicked;
      }
      done := done + [key];
      rest := rest - {key};
    }
    assert done == Ascending(m.Keys);
    return Printed(buffer.events);
  }

  // ---------------------------------------------------------------------
  // What the rendering says about the map

  predicate Extends(k: Key, key: Key) {
    |key| <= |k| && k[..|key|] == key
  }

  /** An event written by the walk from `key` describes the map: a hub line
      names a hub-class device at or below `key` with at most 15 ports, a
      device line a device of another class strictly below `key`, a port
      line a port between 1 and 15. */
  ghost predicate SoundEvent(e: Event, key: Key, m: DeviceMap) {
    match e
    case HubLine(_, info, portCount, _) =>
      portCount <= MAX_PORTS &&
      exists k :: k in m && Extends(k, key) && m[k] == info && info.deviceClass == DEVICE_CLASS_HUB
    case DeviceLine(info) =>
      exists k :: k in m && Extends(k, key) && |k| > |key| && m[k] == info && info.deviceClass != DEVICE_CLASS_HUB
    case PortLine(_, port, _) => 1 <= port <= MAX_PORTS
    case Newline => true
  }

  lemma SoundBelow(e: Event, child: Key, key: Key, m: DeviceMap)
    requires SoundEvent(e, child, m) && Extends(child, key) && |child| > |key|
    ensures SoundEvent(e, key, m)
  {
    match e
    case HubLine(_, info, _, _) =>
      var k :| k in m && Extends(k, child) && m[k] == info && info.deviceClass == DEVICE_CLASS_HUB;
      assert k[..|key|] == k[..|child|][..|key|];
    case DeviceLine(info) =>
      var k :| k in m && Extends(k, child) && |k| > |child| && m[k] == info && info.deviceClass != DEVICE_CLASS_HUB;
      assert k[..|key|] == k[..|child|][..|key|];
    case _ =>
  }

  lemma {:induction false} DescribeHubSound(key: Key, m: DeviceMap, host: Host)
    ensures forall e :: e in DescribeHubSpec(key, m, host).events ==> SoundEvent(e, key, m)
    decreases Deeper(m, |key|), 2, 0
  {
    if key in m {
      var info := m[key];
      var r := HubOf(info, host.open(info));
      if r.Ok? {
        var hub := r.value;
        var device := host.open(info).device;
        PortsSound(key, hub, device, Indent(info), hub.PortCount(), m, host);
        assert Extends(key, key);
      }
    }
  }

  lemma {:induction false} PortsSound(key: Key, hub: Hub, device: UsbDevice, indent: nat, n: u8, m: DeviceMap, host: Host)
    requires key in m && n <= hub.PortCount() <= MAX_PORTS
    ensures forall e :: e in PortsSpec(key, hub, device, indent, n, m, host).events ==> SoundEvent(e, key, m)
    decreases Deeper(m, |key|), 1, n
  {
    if n > 0 {
      PortsSound(key, hub, device, indent, n - 1, m, host);
      PortEntrySound(key, hub, device, indent, n, m, host);
    }
  }

  lemma {:induction false} PortEntrySound(key: Key, hub: Hub, device: UsbDevice, indent: nat, port: u8, m: DeviceMap, host: Host)
    requires key in m && 1 <= port <= MAX_PORTS
    ensures forall e :: e in PortEntry(key, hub, device, indent, port, m, host).events ==> SoundEvent(e, key, m)
    decreases Deeper(m, |key|), 0, 1
  {
    var portKey := key + [port];
    assert Extends(portKey, key) && portKey[..|key|] == key;
    var status := GetPortStatus(hub, device, port);
    var connection := if status.Ok? then status.value.Connection() else true;
    if connection && portKey in m && m[portKey].deviceClass == DEVICE_CLASS_HUB {
      DeeperShrinks(m, key);
      DescribeHubSound(portKey, m, host);
      forall e | e in DescribeHubSpec(portKey, m, host).events
        ensures SoundEvent(e, key, m)
      {
        SoundBelow(e, portKey, key, m);
      }
    }
  }

  /** `list` prints only devices of the map: hub lines for hub-class
      devices and device lines for the others. */
  lemma ListSound(m: DeviceMap, host: Host)
    ensures ListOf(m, host).Printed? ==> forall e :: e in ListOf(m, host).events ==> SoundEvent(e, [], m)
  {
    ListOverSound(Ascending(m.Keys), m, host);
  }

  lemma {:induction false} ListOverSound(ks: seq<Key>, m: DeviceMap, host: Host)
    ensures forall e :: e in ListOver(ks, m, host).events ==> SoundEvent(e, [], m)
    decreases |ks|
  {
    if |ks| > 0 {
      var key := ks[|ks| - 1];
      ListOverSound(ks[..|ks| - 1], m, host);
      if IsRoot(key, m) {
        DescribeHubSound(key, m, host);
        forall e | e in DescribeHubSpec(key, m, host).events
          ensures SoundEvent(e, [], m)
        {
          SoundBelow(e, key, [], m);
        }
      }
    }
  }

  /** Without a hub-class device under a key of length 2, `list` prints
      nothing, whatever else the map holds. */
  lemma NoRootsNothingPrinted(m: DeviceMap, host: Host)
    requires forall k :: k in m ==> !IsRoot(k, m)
    ensures ListOf(m, host) == Printed([])
  {
    AscendingSorted(m.Keys);
    ListOverNoRoots(Ascending(m.Keys), m, host);
  }

  lemma {:induction false} ListOverNoRoots(ks: seq<Key>, m: DeviceMap, host: Host)
    requires forall i :: 0 <= i < |ks| ==> !IsRoot(ks[i], m)
    ensures ListOver(ks, m, host) == Run([], Done)
    decreases |ks|
  {
    if |ks| > 0 {
      ListOverNoRoots(ks[..|ks| - 1], m, host);
    }
  }
}
