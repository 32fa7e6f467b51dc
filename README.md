# usb-hub-control in Dafny

This project models the control core of `usb-hub-control`, a small Rust library and command-line tool (`uhubctrl`) for USB hubs. The library opens a device of the hub class and reads its hub descriptor and its Binary Object Store (BOS). It queries port status and switches port power one port at a time. The tool enumerates the devices on the host and prints the hub tree. It can also switch one port of the hub named by a location string such as `2-1.3`.

The model is split into nine modules:

- `UsbBase` (`usb_base.dfy`) holds the shared vocabulary:
  - bytes and 16-bit words;
  - the library's error enum;
  - the outcome of an operation: `Ok`, `Err`, or `Panic` for a Rust `assert!`, an `unwrap` or an out-of-range slice;
  - control requests;
  - the enumerated device record.

  The transport is abstract. A `UsbDevice` is its `bcdUSB` version plus two functions: one gives the reply to a control-IN request, the other the error (if any) of a control-OUT request. A `Host` gives the outcome of opening a device.
- `PortStatusWord` (`port_status.dfy`): the `PortStatus` word and its bit tests, including the private SuperSpeed flag in bit 15 that moves the power bit from 8 to 9.
- `HubDescriptors` (`hub_descriptor.dfy`):
  - the hub-class GET_DESCRIPTOR request;
  - the length check and the decode of the reply;
  - the logical power-switching mode.
- `Bos` (`bos.dfy`):
  - `DeviceCapabilityType::from`;
  - the `BinaryObjectStoreDescriptor` class, which holds a 256-byte `array` filled in place by `from_data`;
  - the `container_id` loop, proved against the recursive walk `ContainerIdOf`;
  - an encoder for standard BOS layouts, used to state what the walk returns.
- `Hubs` (`hub.dfy`): `Hub::from_device_info`, `get_bos_description`, `port_status` and `set_port_power`. `set_port_power` returns the control request it sent.
- `Text` (`text.dfy`): decimal digits, `split` and `join` on one character, and their round trips.
- `Topology` (`topology.dfy`):
  - the tool's `BTreeMap` from key `[busnum] ++ port_chain` to device, and the loop that fills it;
  - the map's lexicographic key order;
  - the recursive `describe_hub`, as a specification function and as a method that appends to an `Output` writer;
  - `list`.

  The rendering is a sequence of abstract line events (hub line, port line, device line, line break), not text.
- `Scenario` (`scenario.dfy`): a concrete host with one hub of four ports and a device on its port 2, and the tree `list` prints for it.
- `Location` (`location.dfy`):
  - the location grammar `digits-digits(.digits)*`;
  - the location parse, as the tool computes it;
  - the power command's lookup of its target.

A location's port numbers that do not fit in a byte are dropped by the `filter_map` of the parse, so `2-300.1` names the device at port 1 of bus 2. A bus number above 255 panics at its `unwrap`. `Location.ParseLocation` models both, and the example lemmas show them.

## Model

| member | source | states |
|---|---|---|
| UsbBase.FromLeBytes | src/lib.rs:101 | the low byte of the word is the first byte and the high byte is the second (`u16::from_le_bytes`) |
| UsbBase.LeValue | src/lib.rs:404 | the little-endian value of two bytes has the first byte as its low byte and the second as its high byte |
| PortStatusWord.FromField | src/lib.rs:236-238 | bits 0-14 of the stored word are those of the raw word; the word reads as SuperSpeed exactly when the hub is SuperSpeed or the raw word already has bit 15 set |
| PortStatusWord.LowBitsIgnoreGeneration | src/lib.rs:240-269 | connection, enabled, suspended, overcurrent and reset are bits 0-4 of the raw word, whatever the hub generation |
| PortStatusWord.PoweredBit | src/lib.rs:275-286 | `powered` tests bit 9 for a SuperSpeed hub (or a raw word with bit 15 set) and bit 8 otherwise |
| PortStatusWord.PoweredDependsOnGeneration | src/lib.rs:275-297 | the word 0x0201 is powered on a SuperSpeed hub and unpowered on a USB 2.0 hub, and connected on both |
| HubDescriptors.LogicalPowerSwitchingModeOf | src/lib.rs:325-335 | the mode depends only on characteristics & 3: 1 is individual, 0 is common, 2 and 3 are unknown (each direction stated) |
| HubDescriptors.HubDescriptorRequest | src/lib.rs:72-92 | a class, device-recipient GET_DESCRIPTOR (6) request with index 0: value 0x2a00 and 12 bytes for a SuperSpeed hub, else value 0x2900 and 9 bytes |
| HubDescriptors.DecodeHubDescriptor | src/lib.rs:100-106 | the port count is byte 2 when it is at most 15 and 0 otherwise, so it never exceeds 15; the characteristics are bytes 3-4 little-endian |
| HubDescriptors.GetHubDescription | src/lib.rs:71-107 | never panics; succeeds exactly when the reply is received and has the requested size, with the decoded descriptor; a failed transfer is `UsbTransferError` with its error; a received reply of any other length is `InvalidRespone` |
| Bos.DeviceCapabilityTypeFrom | src/lib.rs:360-383 | codes 0x01-0x11 name a capability and every other code is `Reserved` (both directions); a named capability maps back to its code |
| Bos.CapabilityCodeRoundTrip | src/lib.rs:360-383 | decoding the code of any named capability gives that capability |
| Bos.ContainerIdCodeOnly | src/lib.rs:360-383 | `from` gives `ContainerId` for exactly the code 0x04, so the walk may compare the capability byte with 0x04 |
| Bos.BinaryObjectStoreDescriptor.constructor | src/lib.rs:407-412 | the 256-byte buffer holds the data at its front and zeros after it, and `length` is the data's length |
| Bos.BinaryObjectStoreDescriptor.FromData | src/lib.rs:400-413 | succeeds exactly when the data is at least 5 bytes, starts 5, 0x0f, has the little-endian total length equal to its length, and fits 256 bytes; panics otherwise; a success stores exactly the data |
| Bos.BinaryObjectStoreDescriptor.ContainerId | src/lib.rs:416-436 | the cursor loop returns what the record walk `ContainerIdOf` gives on the stored bytes |
| Bos.WalkWholeBuffer | src/lib.rs:422-434 | the record walk never returns an error, and a found ID is always bytes 4..20 of the whole buffer |
| Bos.ContainerIdIsHeaderWindow | src/lib.rs:416-436 | `container_id` never errs, and any ID it returns is bytes 4..20 of the BOS, wherever the Container ID record sits |
| Bos.FirstRecordNotCapability | src/lib.rs:424-426 | a first record whose descriptor type is not 0x10 panics, in the code's walk and in the corrected one |
| Bos.EncodeBos | src/lib.rs:400-405 | a BOS built from a header and records of total size up to 256 passes every check of `from_data` |
| Bos.WalkStep | src/lib.rs:424-433 | a record of another capability type advances the walk by its length and uses up one record |
| Bos.WalkSkipsOthers | src/lib.rs:422-434 | the walk passes over any run of other capability records and lands just after them |
| Bos.WalkMeetsContainerId | src/lib.rs:428-431 | a walk that reaches a Container ID record of length 20 ends there with bytes 4..20 of the whole buffer in the code, and with the record's 16-byte ID in the corrected walk |
| Bos.ContainerIdOfStandardBos | src/lib.rs:428-431 | for a standard BOS whose Container ID record follows other records, the code returns bytes 4..20 of the BOS, while the corrected walk returns the record's 16-byte ID |
| Bos.ContainerIdWindowCounterexample | src/lib.rs:430 | for a BOS holding only a Container ID record with ID a0..af, the code returns 01 14 10 04 00 a0..aa, not the ID |
| Bos.NoContainerIdRecord | src/lib.rs:416-435 | a standard BOS none of whose records is a Container ID record has no Container ID (`Ok(None)`), in the code's walk and in the corrected one |
| Hubs.BosRequest | src/lib.rs:115-126 | a standard, device-recipient GET_DESCRIPTOR request with value 0x0f00, index 0 and a 4096-byte buffer |
| Hubs.BosBytesOf | src/lib.rs:109-135 | a failed transfer is `UsbTransferError` with its error; a received reply shorter than 5 bytes is `InvalidRespone`; a reply `from_data` accepts is returned; any other reply of 5 or more bytes panics |
| Hubs.GetBosDescription | src/lib.rs:109-135 | succeeds, errs or panics exactly as `BosBytesOf` does, and a success is a fresh descriptor holding the reply |
| Hubs.HubOf | src/lib.rs:31-69 | a class other than 0x09 is `InvalidDeviceClass` before any open; a failed open is `UsbError`; a hub is SuperSpeed exactly when bcdUSB > 0x0300; a hub-descriptor error is returned as itself; a BOS read error still builds the hub, with no Container ID; a BOS decode or walk panic panics; otherwise the hub holds the descriptor read (at most 15 ports) and the walk's Container ID, which is bytes 4..20 of the BOS |
| Hubs.ContainerIdFound | src/lib.rs:48-51 | the Container ID step never fails with an error, and any ID it finds is bytes 4..20 of an accepted BOS |
| Hubs.FromDeviceInfo | src/lib.rs:31-69 | the constructor, which goes through the stored BOS descriptor and its loop, returns exactly `HubOf` |
| Hubs.GetPortStatus | src/lib.rs:153-181 | never panics; `InvalidPort` exactly when the port is above the port count (port 0 is queried); succeeds exactly on a 4-byte reply, with the status from bytes 0-1 and the hub's generation; any other length is `UsbTransferError(Fault)`; a failed transfer is `UsbTransferError` of its own error |
| Hubs.PortStatusRequest | src/lib.rs:160-168 | the request is a class, other-recipient GET_STATUS with value 0, the port as index and a 4-byte buffer |
| Hubs.SetPortPower | src/lib.rs:184-220 | `InvalidPort` whenever the mode is not individual, whatever the port, and for ports above the count; otherwise sends a class, other-recipient request 0x03 (on) or 0x01 (off) with value 8, index the port and no data, and succeeds exactly when that transfer does; a failed transfer is `UsbTransferError` of its own error |
| Text.DigitValue | src/bin/uhubctrl.rs:204 | a digit's value is below 10 |
| Text.DigitChar | src/bin/uhubctrl.rs:53 | the digit written for a value below 10 is a digit that reads back as that value |
| Text.ToDecimal | src/bin/uhubctrl.rs:53 | `to_string` of a number is a non-empty run of digits |
| Text.ValueOfToDecimal | src/bin/uhubctrl.rs:204 | parsing the decimal text of a number gives the number |
| Text.ValueOf | src/bin/uhubctrl.rs:204-208 | `parse` of a run of digits gives a value below 10 to the power of its length |
| Text.ValueOfLeadingZero | src/bin/uhubctrl.rs:204-208 | a leading zero does not change the parsed value |
| Text.IndexOf | src/bin/uhubctrl.rs:207 | the first occurrence of a character, or the length when it does not occur |
| Text.IndexAfterPiece | src/bin/uhubctrl.rs:207 | in a piece free of the separator followed by the separator, the first separator is right after the piece |
| Text.Split | src/bin/uhubctrl.rs:207 | `split` gives at least one piece, and no piece contains the separator |
| Text.Join | src/bin/uhubctrl.rs:55 | `join` starts with the first piece, followed by the separator when there is a second piece |
| Text.JoinSplit | src/bin/uhubctrl.rs:55 | joining the pieces of a split gives the text back |
| Text.SplitJoin | src/bin/uhubctrl.rs:207 | splitting joined pieces that are free of the separator gives the pieces back |
| Text.Decimals | src/bin/uhubctrl.rs:53-54 | one decimal text per number, in order |
| Topology.KeyOf | src/bin/uhubctrl.rs:189-191 | a device's key is its bus number followed by its port chain |
| Topology.BuildDeviceMap | src/bin/uhubctrl.rs:186-193 | the insertion loop builds the map `MapOf` of the enumerated devices |
| Topology.MapOfLookup | src/bin/uhubctrl.rs:188-193 | a key is in the map exactly when some device has it, and it holds the last device with that key |
| Topology.KeyLessIrreflexive | src/bin/uhubctrl.rs:149 | no key comes before itself in the map's order |
| Topology.KeyLessTransitive | src/bin/uhubctrl.rs:149 | the map's key order is transitive |
| Topology.KeyLessTotal | src/bin/uhubctrl.rs:149 | any two different keys are ordered one way or the other |
| Topology.PrefixComesFirst | src/bin/uhubctrl.rs:149 | a hub's key comes before the key of every device below it |
| Topology.LeastExists | src/bin/uhubctrl.rs:149 | every non-empty set of keys has a least key |
| Topology.LeastUnique | src/bin/uhubctrl.rs:149 | the least key is unique |
| Topology.AscendingSorted | src/bin/uhubctrl.rs:149 | the iteration visits every key of the map once, in strictly ascending order |
| Topology.KeyOrderExample | src/bin/uhubctrl.rs:149 | [1,2] comes before [1,2,1], which comes before [1,3] |
| Topology.KeyText | src/bin/uhubctrl.rs:48-56 | the hub's key text is the decimal bus number followed by a dot |
| Topology.KeyTextReadsBack | src/bin/uhubctrl.rs:48-56 | for a hub with a port chain, the text before the dot is the bus number and the text after it splits on dashes back into the decimal port numbers |
| Topology.Indent | src/bin/uhubctrl.rs:44 | the indentation is two columns per port of the chain after the first, `2 * (len - 1)`, and zero for an empty chain (`saturating_sub`); it is even, and zero exactly for a chain of at most one port |
| Topology.DescribeDevice | src/bin/uhubctrl.rs:12-33 | at most one line, present exactly when the key is in the map, and it is the line of the device under the key |
| Topology.DeeperShrinks | src/bin/uhubctrl.rs:98-99 | the keys at least one port longer than a key of the map are fewer, so the recursive walk ends |
| Topology.PortEntryCases | src/bin/uhubctrl.rs:100-142 | an unconnected port writes its status line and a line break; a failed status query counts as connected and writes no status line; then an absent child writes a line break, a non-hub child a device line and a line break, and a hub child its own walk |
| Topology.UnconnectedPortNotLookedUp | src/bin/uhubctrl.rs:100-142 | the entry of an unconnected port does not depend on what the map holds under the port's key |
| Topology.PortsStep | src/bin/uhubctrl.rs:97-143 | when ports 1..n-1 all succeed, the entries of ports 1..n are theirs followed by the entry of port n |
| Topology.PortsStop | src/bin/uhubctrl.rs:133 | once a port entry fails, later ports write nothing more |
| Topology.DescribeHub | src/bin/uhubctrl.rs:35-145 | writes exactly the events of `DescribeHubSpec` and returns its status: nothing for an absent key, nothing and the error for a hub that fails to open, else the hub line and one entry per port 1..port_count in increasing order |
| Topology.WritePorts | src/bin/uhubctrl.rs:97-143 | the port loop writes exactly the entries `PortsSpec` of ports 1..port_count and returns at the first failing entry with its error or panic |
| Topology.WritePortEntry | src/bin/uhubctrl.rs:98-142 | the loop body writes exactly the entry `PortEntry` of one port |
| Topology.WriteChild | src/bin/uhubctrl.rs:126-139 | a connected port writes exactly `ChildEntry`: a line break when no device has its key, the device line and a line break for a non-hub, the hub's own walk for a hub |
| Topology.WriteRoot | src/bin/uhubctrl.rs:150-152 | walks the hub under a key of length 2 into the buffer and skips every other key, writing nothing |
| Topology.ListStops | src/bin/uhubctrl.rs:151 | after a failed hub walk the rest of the iteration adds nothing |
| Topology.ListOverStep | src/bin/uhubctrl.rs:149-153 | one more key extends a successful iteration by that key's walk and leaves a failed one unchanged |
| Topology.ListAdvance | src/bin/uhubctrl.rs:149 | the least key not yet visited is the next key of the ascending iteration |
| Topology.List | src/bin/uhubctrl.rs:147-157 | walks the keys of length 2 whose device is a hub, in ascending key order, and prints the buffer only if every walk succeeded; otherwise returns the first error or panic |
| Topology.DescribeHubSound | src/bin/uhubctrl.rs:35-145 | every hub line names a hub-class device of the map at or below the key, with at most 15 ports; every device line names a non-hub device strictly below it; every port line names a port from 1 to 15 |
| Topology.PortsSound | src/bin/uhubctrl.rs:97-143 | the same for the entries of ports 1..n |
| Topology.PortEntrySound | src/bin/uhubctrl.rs:98-142 | the same for one port entry |
| Topology.ListSound | src/bin/uhubctrl.rs:147-157 | everything `list` prints describes devices of the map, hub lines for hubs and device lines for other devices |
| Topology.ListOverSound | src/bin/uhubctrl.rs:149-152 | the same for any sequence of keys |
| Topology.NoRootsNothingPrinted | src/bin/uhubctrl.rs:149-152 | without a hub under a key of length 2, `list` prints nothing, whatever else the map holds |
| Topology.ListOverNoRoots | src/bin/uhubctrl.rs:149-152 | iterating over keys that are not roots writes nothing and succeeds |
| Location.KeepBytes | src/bin/uhubctrl.rs:205-209 | `filter_map` keeps at most as many port numbers as there are pieces; which pieces it keeps is stated by the three lemmas below |
| Location.KeepBytesCons | src/bin/uhubctrl.rs:205-209 | the first piece is kept, as its value, exactly when its value fits in a byte, and the filter goes on with the rest |
| Location.KeepBytesAppend | src/bin/uhubctrl.rs:205-209 | the filter of two runs of pieces is the filter of the first followed by the filter of the second |
| Location.KeepBytesPieceByPiece | src/bin/uhubctrl.rs:205-209 | the filter keeps a piece exactly when its value fits in a byte, in order, independently of the pieces around it |
| Location.ParseLocation | src/bin/uhubctrl.rs:197-221 | the parse never reports an error, and a parsed key holds at least the bus number |
| Location.ParseOfPieces | src/bin/uhubctrl.rs:197-221 | a string built from a bus number and port pieces panics when the bus number is above 255, and otherwise parses to the bus number followed by the port numbers that fit in a byte |
| Location.ParseMatchesGrammar | src/bin/uhubctrl.rs:197-203 | the parse yields a key or panics exactly on the strings of the grammar `digits-digits(.digits)*` |
| Location.KeepBytesOfDecimals | src/bin/uhubctrl.rs:205-209 | the decimal texts of bytes are runs of digits, and parsing them back keeps every byte |
| Location.FormatThenParse | src/bin/uhubctrl.rs:197-221 | parsing the location text of any key with at least one port gives the key back |
| Location.ParseExample | src/bin/uhubctrl.rs:197-212 | "2-1.3" parses to [2,1,3] |
| Location.NoPortsExample | src/bin/uhubctrl.rs:197-203 | "2-" gives no key |
| Location.NotABusExample | src/bin/uhubctrl.rs:197-203 | "x-1" gives no key |
| Location.EmptyPortExample | src/bin/uhubctrl.rs:197-203 | "2-1..3" gives no key |
| Location.BusPastByteExample | src/bin/uhubctrl.rs:204 | "256-1" panics |
| Location.PortPastByteExample | src/bin/uhubctrl.rs:205-209 | "2-300.1" parses to [2,1]: the port number 300 is dropped |
| Location.DroppedPortNamesRootHub | src/bin/uhubctrl.rs:205-212 | "2-300" parses to [2], the key of the root hub of bus 2 |
| Location.HubKeyTextIsNotALocation | src/bin/uhubctrl.rs:48-56 | the key text a hub line shows (`bus.p-p`) never parses as a location |
| Location.PowerCommand | src/bin/uhubctrl.rs:201-236 | nothing happens without a location that parses to a key of the map; a bus number past a byte panics; a located device that does not open as a hub panics at `unwrap`; a located hub is switched, returning the request sent, or reports the switch error without panicking |
| Location.SwitchedOnlyIndividualPorts | src/bin/uhubctrl.rs:222-236 | a switch request goes only to a hub with individual port power switching, for a port it has, and is the PORT_POWER request for that port |
| Scenario.ExampleMap | src/bin/uhubctrl.rs:186-193 | enumerating the hub and the device builds the map of their two keys |
| Scenario.ExampleHubOpens | src/lib.rs:31-69 | the example hub opens as a USB 2.0 hub of four ports, switched per port, with no Container ID after its failed BOS read |
| Scenario.ExampleSwitch | src/lib.rs:184-220 | switching port 2 off sends the PORT_POWER clear request; port 5 of the four-port hub is `InvalidPort` |
| Scenario.ExampleKeyText | src/bin/uhubctrl.rs:48-56 | the hub line shows the hub on port 1 of bus 1 as `1.1` |
| Scenario.PortStatuses | src/lib.rs:153-181 | port 2 reports a connection and ports 1, 3 and 4 report none |
| Scenario.EmptyPortEntry | src/bin/uhubctrl.rs:98-142 | an empty port writes its status line and a line break |
| Scenario.ConnectedPortEntry | src/bin/uhubctrl.rs:98-142 | port 2 writes its status line, the device line and a line break |
| Scenario.ExamplePorts | src/bin/uhubctrl.rs:97-143 | the four port entries in order, only port 2 going on with a device line |
| Scenario.ExampleWalk | src/bin/uhubctrl.rs:35-145 | the hub's walk is one hub line followed by the four port entries |
| Scenario.ExampleRootWalks | src/bin/uhubctrl.rs:149-152 | `list` walks the hub under its key of length 2 and writes nothing for the device's key of length 3 |
| Scenario.ExampleIteration | src/bin/uhubctrl.rs:149-153 | iterating over the hub's key and then the device's key writes the hub's walk and ends normally |
| Scenario.ExampleOrder | src/bin/uhubctrl.rs:149 | the map is iterated hub first, then the device below it |
| Scenario.ListExample | src/bin/uhubctrl.rs:147-157 | `list` prints exactly one hub line and four port lines, and only port 2's line goes on with a device line |

## Left out

- I/O through `nusb` is not modelled: `list_devices`, `open().wait()`, `device_descriptor()`, the blocking control transfers and their 5-second timeouts. Each becomes a function supplied as a parameter: the reply to a request, the error of an OUT transfer, the outcome of an open. The reply is the received bytes, so `truncate` to the received length is implicit.
- The transfer error codes of `nusb` other than `Fault` are kept abstract, as a number.
- Hubs.Hub: the open `Device` is not a field of the hub value. Function-valued fields have no equality in Dafny, so the device is passed beside the hub to each operation.
- The getters `info`, `port_count` and `container_id`, and the `Hash` impl, are not modelled. The getters only return fields; the `Hash` impl feeds the standard hasher.
- The `trace!` and `env_logger` logging, including the switching-mode name built only for logging, is not modelled.
- `src/main.rs` is not part of this model. It is an earlier draft of the tool with its own decoding rules.
- `src/error.rs` contributes only its variants, as `UsbBase.Error`. Its `Display` strings are not modelled.
- Text rendering is not modelled: `write!`/`println!` formatting, hexadecimal fields, the Container ID hex string and the UTF-8 conversion of the output buffer. The output is a sequence of line events that carry the values a line shows.
- The power command's `PORT ...` line and the `eprint!`/`eprintln!` diagnostics are not written as events. `Location.PowerCommand` reports the target key and the request or error instead.
- Argument parsing with `clap` and the regex library are not modelled. The grammar of the location regex is stated directly in `Location.LocationSyntax`, and the parse scans for the first dash.
- The port-change word in bytes 2-3 of a port status reply is read and dropped by the code, and is not modelled.
- Topology.List: the map's internal tree is not modelled. The iteration order is stated as the keys in ascending lexicographic order (`Ascending`), and the method takes the least remaining key at each step.
- Bos.BinaryObjectStoreDescriptor.ContainerId: the cursor `part` is an offset into the stored bytes rather than a sub-slice.

## Findings

| source | as written | input that shows it | evidently intended | confidence | as-written member | corrected member |
|---|---|---|---|---|---|---|
| src/lib.rs:430 | a matched Container ID record returns `buf[4..20]` of the whole BOS: the record count, the first record's header and the first 11 ID bytes | a BOS of one Container ID record with ID a0..af gives 01 14 10 04 00 a0..aa | bytes 4..20 of the matched record, the 16-byte ID as section 9.6.2.3 of USB 3.2 lays it out | high (proved; not executed) | Bos.ContainerIdWindowCounterexample | Bos.ContainerIdOfStandardBos |

`Bos.ContainerIdOf` models the code as written. `Bos.CorrectedContainerIdOf` reads the ID from the matched record, and `Bos.ContainerIdOfStandardBos` proves that it returns the record's ID for every standard BOS. The hub model (`Hubs.HubOf`, `Hubs.FromDeviceInfo`) keeps the behaviour as written, because it describes what the library reports today. The corrected walk is stated beside it, not substituted.
