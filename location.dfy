/** The `power` command of the tool: a location string `bus-port.port…`
    is read into a device key, the device under that key is opened as a
    hub, and one of its ports is switched on or off. */
module Location {
  import opened UsbBase
  import opened HubDescriptors
  import opened Hubs
  import opened Topology
  import Text

  /** Every piece is a non-empty run of digits. */
  predicate AllDigits(parts: seq<string>) {
    forall j :: 0 <= j < |parts| ==> Text.IsDigits(parts[j])
  }

  /** `filter_map(parse::<u8>().ok())` over runs of digits: the values that
      fit in a byte, in order; the others are dropped. */
  function KeepBytes(parts: seq<string>): (bytes: seq<u8>)
    requires AllDigits(parts)
    ensures |bytes| <= |parts|
    decreases |parts|
  {
    if |parts| == 0 then []
    else
      var v := Text.ValueOf(parts[0]);
      (if v <= 0xff then [v] else []) + KeepBytes(parts[1..])
  }

  /** One piece in front of the rest. */
  lemma KeepBytesCons(piece: string, rest: seq<string>)
    requires Text.IsDigits(piece) && AllDigits(rest)
    ensures AllDigits([piece] + rest)
    ensures KeepBytes([piece] + rest) ==
            (if Text.ValueOf(piece) <= 0xff then [Text.ValueOf(piece) as u8] else []) + KeepBytes(rest)
  {
    assert ([piece] + rest)[0] == piece;
    assert ([piece] + rest)[1..] == rest;
  }

  /** The filter of a concatenation is the concatenation of the filters. */
  lemma {:induction false} KeepBytesAppend(front: seq<string>, back: seq<string>)
    requires AllDigits(front) && AllDigits(back)
    ensures AllDigits(front + back)
    ensures KeepBytes(front + back) == KeepBytes(front) + KeepBytes(back)
    decreases |front|
  {
    if |front| == 0 {
      assert front + back == back;
    } else {
      var rest := front[1..] + back;
      assert front + back == [front[0]] + rest;
      assert front == [front[0]] + front[1..];
      KeepBytesAppend(front[1..], back);
      KeepBytesCons(front[0], rest);
      KeepBytesCons(front[0], front[1..]);
    }
  }

  /** The filter works piece by piece: the pieces before, one piece kept
      exactly when its value fits in a byte, and the pieces after. */
  lemma KeepBytesPieceByPiece(before: seq<string>, piece: string, after: seq<string>)
    requires AllDigits(before) && Text.IsDigits(piece) && AllDigits(after)
    ensures AllDigits(before + [piece] + after)
    ensures KeepBytes(before + [piece] + after) ==
            KeepBytes(before) +
            (if Text.ValueOf(piece) <= 0xff then [Text.ValueOf(piece) as u8] else []) +
            KeepBytes(after)
  {
    KeepBytesCons(piece, []);
    assert [piece] + [] == [piece];
    KeepBytesAppend(before, [piece]);
    KeepBytesAppend(before + [piece], after);
  }

  /** The location grammar `^digits-(digits.)*digits$`, stated on its
      pieces: a bus number, a dash, and one or more dot-separated port
      numbers. */
  ghost predicate LocationSyntax(s: string) {
    exists bus: string, parts: seq<string> ::
      Text.IsDigits(bus) && |parts| >= 1 && AllDigits(parts) && s == bus + "-" + Text.Join(parts, '.')
  }

  /** The location parse of `main`: `Ok(None)` when the string does not
      match the grammar; a bus number above 255 panics at its `unwrap`;
      otherwise the bus number followed by the port numbers that fit in a
      byte. The match is found by scanning for the first dash: the bus
      number holds no dash and every other dash falls in a port piece. */
  function ParseLocation(s: string): (r: Outcome<Option<Key>>)
    ensures !r.Err?
    ensures r.Ok? && r.value.Some? ==> |r.value.value| >= 1
  {
    var i := Text.IndexOf(s, '-');
    if i == |s| then Ok(None)
    else
      var bus := s[..i];
      var parts := Text.Split(s[i + 1..], '.');
      if !(Text.IsDigits(bus) && AllDigits(parts)) then Ok(None)
      else if Text.ValueOf(bus) > 0xff then Panic
      else Ok(Some([Text.ValueOf(bus)] + KeepBytes(parts)))
  }

  /** The parse of a string built from the grammar's pieces. */
  lemma ParseOfPieces(bus: string, parts: seq<string>)
    requires Text.IsDigits(bus) && |parts| >= 1 && AllDigits(parts)
    ensures var s := bus + "-" + Text.Join(parts, '.');
            ParseLocation(s) ==
              if Text.ValueOf(bus) > 0xff then Panic else Ok(Some([Text.ValueOf(bus)] + KeepBytes(parts)))
  {
    var chain := Text.Join(parts, '.');
    var s := bus + "-" + chain;
    assert s == bus + ['-'] + chain;
    Text.IndexAfterPiece(bus, '-', chain);
    assert s[..|bus|] == bus && s[|bus| + 1..] == chain;
    forall j, k | 0 <= j < |parts| && 0 <= k < |parts[j]|
      ensures parts[j][k] != '.'
    {
      assert Text.IsDigits(parts[j]);
    }
    Text.SplitJoin(parts, '.');
  }

  /** The parse finds a key or panics exactly on the strings of the
      grammar. */
  lemma ParseMatchesGrammar(s: string)
    ensures ParseLocation(s) != Ok(None) <==> LocationSyntax(s)
  {
    var i := Text.IndexOf(s, '-');
    if ParseLocation(s) != Ok(None) {
      var bus := s[..i];
      var chain := s[i + 1..];
      Text.JoinSplit(chain, '.');
      assert s == bus + "-" + Text.Join(Text.Split(chain, '.'), '.');
    }
    if LocationSyntax(s) {
      var bus: string, parts: seq<string> :|
        Text.IsDigits(bus) && |parts| >= 1 && AllDigits(parts) && s == bus + "-" + Text.Join(parts, '.');
      ParseOfPieces(bus, parts);
    }
  }

  /** The location text of a key of a device behind a root port. */
  function FormatLocation(key: Key): string
    requires |key| >= 2
  {
    Text.ToDecimal(key[0]) + "-" + Text.Join(Text.Decimals(key[1..]), '.')
  }

  lemma {:induction false} KeepBytesOfDecimals(bytes: seq<u8>)
    ensures AllDigits(Text.Decimals(bytes)) && KeepBytes(Text.Decimals(bytes)) == bytes
    decreases |bytes|
  {
    if |bytes| > 0 {
      var ds := Text.Decimals(bytes);
      KeepBytesOfDecimals(bytes[1..]);
      Text.ValueOfToDecimal(bytes[0]);
      assert ds == [Text.ToDecimal(bytes[0])] + Text.Decimals(bytes[1..]);
      KeepBytesCons(Text.ToDecimal(bytes[0]), Text.Decimals(bytes[1..]));
      assert bytes == [bytes[0]] + bytes[1..];
    }
  }

  /** Reading the location text of a key gives the key back. */
  lemma FormatThenParse(key: Key)
    requires |key| >= 2
    ensures ParseLocation(FormatLocation(key)) == Ok(Some(key))
  {
    KeepBytesOfDecimals(key[1..]);
    Text.ValueOfToDecimal(key[0]);
    ParseOfPieces(Text.ToDecimal(key[0]), Text.Decimals(key[1..]));
    assert [key[0]] + key[1..] == key;
  }

  /** The one-digit numbers of the examples. */
  lemma DigitValues()
    ensures Text.ValueOf("1") == 1 && Text.ValueOf("2") == 2 && Text.ValueOf("3") == 3
  {
    assert "1"[..0] == "" && "2"[..0] == "" && "3"[..0] == "";
  }

  /** "300" is a number past a byte. */
  lemma ThreeHundred()
    ensures Text.IsDigits("300") && Text.ValueOf("300") == 300
  {
    assert "300"[..2] == "30" && "30"[..1] == "3" && "3"[..0] == "";
  }

  /** "2-1.3" as a bus number, a dash and joined port pieces, and the
      port numbers kept from those pieces. */
  lemma ExamplePieces()
    ensures "2-1.3" == "2" + "-" + Text.Join(["1", "3"], '.')
    ensures AllDigits(["1", "3"]) && KeepBytes(["1", "3"]) == [1, 3]
  {
    DigitValues();
    assert Text.Join(["1", "3"], '.') == "1.3";
    assert ["1", "3"][1..] == ["3"] && ["3"][1..] == [];
  }

  /** The same for "2-300.1" and "2-300". */
  lemma PastBytePieces()
    ensures "2-300.1" == "2" + "-" + Text.Join(["300", "1"], '.')
    ensures AllDigits(["300", "1"]) && KeepBytes(["300", "1"]) == [1]
    ensures "2-300" == "2" + "-" + Text.Join(["300"], '.')
    ensures AllDigits(["300"]) && KeepBytes(["300"]) == []
  {
    DigitValues();
    ThreeHundred();
    assert Text.Join(["300", "1"], '.') == "300.1";
    assert ["300", "1"][1..] == ["1"] && ["1"][1..] == [];
    assert Text.Join(["300"], '.') == "300";
    assert ["300"][1..] == [];
  }

  /** The example of the grammar: "2-1.3" is bus 2, ports 1 and 3. */
  lemma ParseExample()
    ensures ParseLocation("2-1.3") == Ok(Some([2, 1, 3]))
  {
    ExamplePieces();
    DigitValues();
    ParseOfPieces("2", ["1", "3"]);
    assert [Text.ValueOf("2")] + KeepBytes(["1", "3"]) == [2, 1, 3];
  }

  /** A missing port list does not match. */
  lemma NoPortsExample()
    ensures ParseLocation("2-") == Ok(None)
  {
    assert Text.IndexOf("2-", '-') == 1;
    assert "2-"[2..] == "";
    assert Text.Split("", '.') == [""];
  }

  /** A bus that is not a number does not match. */
  lemma NotABusExample()
    ensures ParseLocation("x-1") == Ok(None)
  {
    assert Text.IndexOf("x-1", '-') == 1;
    assert "x-1"[..1] == "x";
  }

  /** An empty port piece does not match. */
  lemma EmptyPortExample()
    ensures ParseLocation("2-1..3") == Ok(None)
  {
    EmptyPiece();
    assert Text.IndexOf("2-1..3", '-') == 1;
    assert "2-1..3"[2..] == "1..3";
  }

  /** "1..3" splits into "1", an empty piece and "3". */
  lemma EmptyPiece()
    ensures Text.Split("1..3", '.')[1] == ""
  {
    assert Text.IndexOf("1..3", '.') == 1 && "1..3"[2..] == ".3";
    assert Text.IndexOf(".3", '.') == 0 && ".3"[..0] == "";
  }

  /** A bus number past a byte panics. */
  lemma BusPastByteExample()
    ensures ParseLocation("256-1") == Panic
  {
    assert Text.ValueOf("256") == 256 by {
      assert "256"[..2] == "25" && "25"[..1] == "2" && "2"[..0] == "";
    }
    assert Text.Join(["1"], '.') == "1";
    assert "256-1" == "256" + "-" + Text.Join(["1"], '.');
    ParseOfPieces("256", ["1"]);
  }

  /** A port number past a byte is dropped rather than refused. */
  lemma PortPastByteExample()
    ensures ParseLocation("2-300.1") == Ok(Some([2, 1]))
  {
    PastBytePieces();
    DigitValues();
    ParseOfPieces("2", ["300", "1"]);
    assert [Text.ValueOf("2")] + KeepBytes(["300", "1"]) == [2, 1];
  }

  /** Dropping a port number can leave the key of a device higher up the
      chain: "2-300" names the device under key [2], the root hub of
      bus 2. */
  lemma DroppedPortNamesRootHub()
    ensures ParseLocation("2-300") == Ok(Some([2]))
  {
    PastBytePieces();
    DigitValues();
    ParseOfPieces("2", ["300"]);
    assert [Text.ValueOf("2")] + KeepBytes(["300"]) == [2];
  }

  /** The key text a hub line shows (`bus.p-p`) uses the opposite
      separators, and is never read as a location. */
  lemma HubKeyTextIsNotALocation(info: DeviceInfo)
    ensures ParseLocation(KeyText(info)) == Ok(None)
  {
    var d := Text.ToDecimal(info.busnum);
    var s := KeyText(info);
    var i := Text.IndexOf(s, '-');
    assert s[|d|] == '.';
    if i < |s| {
      assert s[..i][|d|] == '.';
    }
  }

  /** What the power command ends with. `Switched` and `SwitchFailed`
      come after the command has printed its target line. */
  datatype PowerResult =
    | NoTarget
    | PowerPanicked
    | Switched(key: Key, request: OutRequest)
    | SwitchFailed(key: Key, error: Error)

  /** The power command of `main`: nothing without a location that parses
      to a key of the map; otherwise the device is opened as a hub (any
      failure panics at its `unwrap`) and the port is switched, a failure
      to switch being only reported. */
  function PowerCommand(port: u8, on: bool, location: Option<string>, m: DeviceMap, host: Host): (r: PowerResult)
    ensures r == NoTarget <==>
              || location.None?
              || ParseLocation(location.value) == Ok(None)
              || (ParseLocation(location.value).Ok? && ParseLocation(location.value).value.value !in m)
    ensures location.Some? && ParseLocation(location.value).Panic? ==> r == PowerPanicked
    ensures location.Some? && ParseLocation(location.value).Ok? && ParseLocation(location.value).value.Some? &&
            ParseLocation(location.value).value.value in m ==>
              var key := ParseLocation(location.value).value.value;
              var hub := HubOf(m[key], host.open(m[key]));
              && (!hub.Ok? ==> r == PowerPanicked)
              && (hub.Ok? && SetPortPower(hub.value, host.open(m[key]).device, port, on).Ok? ==>
                    r == Switched(key, SetPortPower(hub.value, host.open(m[key]).device, port, on).value))
              && (hub.Ok? && SetPortPower(hub.value, host.open(m[key]).device, port, on).Err? ==>
                    r == SwitchFailed(key, SetPortPower(hub.value, host.open(m[key]).device, port, on).error))
    ensures r.Switched? || r.SwitchFailed? ==>
              && location.Some? && ParseLocation(location.value) == Ok(Some(r.key)) && r.key in m
              && HubOf(m[r.key], host.open(m[r.key])).Ok?
    ensures r.Switched? ==>
              SetPortPower(HubOf(m[r.key], host.open(m[r.key])).value, host.open(m[r.key]).device, port, on)
                == Ok(r.request)
    ensures r.SwitchFailed? ==>
              SetPortPower(HubOf(m[r.key], host.open(m[r.key])).value, host.open(m[r.key]).device, port, on)
                == Err(r.error)
  {
    match location
    case None => NoTarget
    case Some(text) =>
      match ParseLocation(text)
      case Err(_) => PowerPanicked
      case Panic => PowerPanicked
      case Ok(None) => NoTarget
      case Ok(Some(key)) =>
        if key !in m then NoTarget
        else
          var info := m[key];
          match HubOf(info, host.open(info))
          case Err(_) => PowerPanicked
          case Panic => PowerPanicked
          case Ok(hub) =>
            match SetPortPower(hub, host.open(info).device, port, on)
            case Ok(request) => Switched(key, request)
            case Err(e) => SwitchFailed(key, e)
            case Panic => PowerPanicked
  }

  /** A switch request is only ever sent to a hub that switches ports
      individually, for a port it has. */
  lemma SwitchedOnlyIndividualPorts(port: u8, on: bool, location: Option<string>, m: DeviceMap, host: Host)
    ensures var r := PowerCommand(port, on, location, m, host);
            r.Switched? ==>
              var hub := HubOf(m[r.key], host.open(m[r.key])).value;
              && LogicalPowerSwitchingModeOf(hub.descriptor) == IndividualPort
              && port <= hub.PortCount() <= MAX_PORTS
              && r.request == PortPowerRequest(port, on)
  {
  }
}
