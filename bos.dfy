/** The Binary Object Store descriptor (`BinaryObjectStoreDescriptor`) and
    the walk over its device-capability records that recovers a hub's
    Container ID (sections 9.6.2 and 9.6.2.3 of the USB 3.2 specification).

    The library copies the ID from bytes 4..20 of the whole BOS buffer
    rather than of the matched record; `ContainerIdOf` models that code,
    and `CorrectedContainerIdOf` reads the record's own bytes 4..20, as
    section 9.6.2.3 lays the record out. */
module Bos {
  import opened UsbBase

  /** Size of the buffer the descriptor is copied into. */
  const BOS_MAX: nat := 256
  const DESCRIPTOR_TYPE_BOS: u8 := 0x0f
  const DESCRIPTOR_TYPE_DEVICE_CAPABILITY: u8 := 0x10
  /** `bLength` of a Container ID capability record. */
  const CONTAINER_ID_RECORD_LENGTH: u8 := 20

  datatype DeviceCapabilityType =
    | WirelessUsb | Usb20Extension | SuperSpeedUsb | ContainerId | Platform
    | PowerDeliveryCapability | BatteryInfoCapability
    | PowerDeliveryConsumerPortCapability | PowerDeliveryProviderPortCapability
    | SuperSpeedPlus | PrecisionTimeMeasurement | WirelessUsbExtensions
    | Billboard | Authentication | BillboardExtensions | ConfigurationSummary
    | FwStatus | Reserved

  /** `DeviceCapabilityType::from`: codes 0x01 to 0x11 name a capability,
      every other code is `Reserved`. */
  function DeviceCapabilityTypeFrom(code: u8): (t: DeviceCapabilityType)
    ensures t == Reserved <==> code == 0 || code > 0x11
    ensures t != Reserved ==> CapabilityCode(t) == code
  {
    match code
    case 0x01 => WirelessUsb
    case 0x02 => Usb20Extension
    case 0x03 => SuperSpeedUsb
    case 0x04 => ContainerId
    case 0x05 => Platform
    case 0x06 => PowerDeliveryCapability
    case 0x07 => BatteryInfoCapability
    case 0x08 => PowerDeliveryConsumerPortCapability
    case 0x09 => PowerDeliveryProviderPortCapability
    case 0x0a => SuperSpeedPlus
    case 0x0b => PrecisionTimeMeasurement
    case 0x0c => WirelessUsbExtensions
    case 0x0d => Billboard
    case 0x0e => Authentication
    case 0x0f => BillboardExtensions
    case 0x10 => ConfigurationSummary
    case 0x11 => FwStatus
    case _ => Reserved
  }

  /** The `bDevCapabilityType` code of a named capability (Table 9-14 of
      USB 3.2), the inverse of `DeviceCapabilityTypeFrom`. */
  function CapabilityCode(t: DeviceCapabilityType): u8
    requires t != Reserved
  {
    match t
    case WirelessUsb => 0x01
    case Usb20Extension => 0x02
    case SuperSpeedUsb => 0x03
    case ContainerId => 0x04
    case Platform => 0x05
    case PowerDeliveryCapability => 0x06
    case BatteryInfoCapability => 0x07
    case PowerDeliveryConsumerPortCapability => 0x08
    case PowerDeliveryProviderPortCapability => 0x09
    case SuperSpeedPlus => 0x0a
    case PrecisionTimeMeasurement => 0x0b
    case WirelessUsbExtensions => 0x0c
    case Billboard => 0x0d
    case Authentication => 0x0e
    case BillboardExtensions => 0x0f
    case ConfigurationSummary => 0x10
    case FwStatus => 0x11
  }

  /** The `bDevCapabilityType` of a Container ID record. */
  const CONTAINER_ID_CODE: u8 := 0x04

  /** `DeviceCapabilityType::from` names the Container ID capability for
      the one code 0x04, so the walk compares the byte with it. */
  lemma ContainerIdCodeOnly(code: u8)
    ensures DeviceCapabilityTypeFrom(code) == ContainerId <==> code == CONTAINER_ID_CODE
  {
  }

  lemma CapabilityCodeRoundTrip(t: DeviceCapabilityType)
    requires t != Reserved
    ensures DeviceCapabilityTypeFrom(CapabilityCode(t)) == t
  {
  }

  /** The checks `from_data` makes by assertion: a 5-byte BOS header of
      type 0x0f whose total length is the length of the data, and data
      that fits the 256-byte buffer it is copied into. */
  predicate FromDataAccepted(d: seq<u8>) {
    && |d| >= 5
    && d[0] == 5
    && d[1] == DESCRIPTOR_TYPE_BOS
    && LeValue(d[2], d[3]) == |d|
    && |d| <= BOS_MAX
  }

  /** Which 16 bytes the walk returns for a matched Container ID record. */
  datatype IdWindow =
    | WholeBufferWindow  // bytes 4..20 of the whole BOS, as the library does
    | RecordWindow       // bytes 4..20 of the matched record

  /** The capability walk from offset `at` with `remaining` records still
      to inspect. Each record is read by its first three bytes; a record
      that is not a device capability panics; a Container ID record of
      length 20 ends the walk; otherwise the walk advances by the record's
      length byte. Every out-of-range index or slice is a panic. */
  function Walk(buf: seq<u8>, at: nat, remaining: nat, window: IdWindow): Outcome<Option<seq<u8>>>
    decreases remaining
  {
    if remaining == 0 then Ok(None)
    else if at + 1 >= |buf| || buf[at + 1] != DESCRIPTOR_TYPE_DEVICE_CAPABILITY || at + 2 >= |buf| then Panic
    else if buf[at + 2] == CONTAINER_ID_CODE && buf[at] == CONTAINER_ID_RECORD_LENGTH then
      IdAt(buf, at, window)
    else if at + buf[at] > |buf| then Panic
    else Walk(buf, at + buf[at], remaining - 1, window)
  }

  function IdAt(buf: seq<u8>, at: nat, window: IdWindow): Outcome<Option<seq<u8>>> {
    match window
    case WholeBufferWindow => if |buf| < 20 then Panic else Ok(Some(buf[4..20]))
    case RecordWindow => if at + 20 > |buf| then Panic else Ok(Some(buf[at + 4..at + 20]))
  }

  /** `container_id` on the stored bytes, as the library computes it:
      byte 4 is the number of records to inspect, the first record is at
      offset 5. */
  function ContainerIdOf(buf: seq<u8>): Outcome<Option<seq<u8>>> {
    if |buf| < 5 then Panic else Walk(buf, 5, buf[4], WholeBufferWindow)
  }

  /** The walk with the ID taken from the matched record. */
  function CorrectedContainerIdOf(buf: seq<u8>): Outcome<Option<seq<u8>>> {
    if |buf| < 5 then Panic else Walk(buf, 5, buf[4], RecordWindow)
  }

  /** The descriptor as the library stores it: a zero-filled 256-byte
      buffer holding the received data at its front, and that data's
      length. */
  class BinaryObjectStoreDescriptor {
    var data: array<u8>
    var length: nat

    ghost predicate Valid()
      reads this
    {
      data.Length == BOS_MAX && length <= BOS_MAX
    }

    /** The stored descriptor, `data[..length]`. */
    function Bytes(): seq<u8>
      reads this, data
      requires Valid()
    {
      data[..length]
    }

    /** The struct literal of `from_data`: a zero-filled buffer, then the
        data copied into its front. */
    constructor (d: seq<u8>)
      requires |d| <= BOS_MAX
      ensures Valid() && fresh(data)
      ensures Bytes() == d
      ensures forall i :: |d| <= i < BOS_MAX ==> data[i] == 0
    {
      data := new u8[BOS_MAX](_ => 0);
      length := |d|;
      new;
      forall i | 0 <= i < |d| {
        data[i] := d[i];
      }
    }

    /** `BinaryObjectStoreDescriptor::from_data`: panics unless the data
        passes the header checks and fits the buffer; otherwise stores
        exactly the data. */
    static method FromData(d: seq<u8>) returns (r: Outcome<BinaryObjectStoreDescriptor>)
      ensures r.Ok? <==> FromDataAccepted(d)
      ensures r.Panic? <==> !FromDataAccepted(d)
      ensures r.Ok? ==> fresh(r.value) && fresh(r.value.data) && r.value.Valid() && r.value.Bytes() == d
    {
      if |d| < 5 || d[0] != 5 || d[1] != DESCRIPTOR_TYPE_BOS || LeValue(d[2], d[3]) != |d| {
        return Panic;
      }
      if |d| > BOS_MAX {
        return Panic;
      }
      var bos := new BinaryObjectStoreDescriptor(d);
      return Ok(bos);
    }

    /** `container_id`: inspects at most byte-4-many records with a cursor
        into the stored bytes. */
    method ContainerId() returns (r: Outcome<Option<seq<u8>>>)
      requires Valid()
      ensures r == ContainerIdOf(Bytes())
    {
      ghost var buf := Bytes();
      if length < 5 {
        return Panic;
      }
      var count := data[4];
      var part: nat := 5;
      var i := 0;
      while i < count
        invariant 0 <= i <= count
        invariant part <= length
        invariant ContainerIdOf(buf) == Walk(buf, part, count - i, WholeBufferWindow)
      {
        if part >= length {
          return Panic;
        }
        var recordLength := data[part];
        if part + 1 >= length {
          return Panic;
        }
        var descriptorType := data[part + 1];
        if descriptorType != DESCRIPTOR_TYPE_DEVICE_CAPABILITY {
          return Panic;
        }
        if part + 2 >= length {
          return Panic;
        }
        var capabilityType := DeviceCapabilityTypeFrom(data[part + 2]);
        ContainerIdCodeOnly(data[part + 2]);
        if capabilityType.ContainerId? && recordLength == CONTAINER_ID_RECORD_LENGTH {
          if length < 20 {
            return Panic;
          }
          assert buf == data[..length];
          assert buf[4..20] == data[..length][4..20] == data[4..20];
          return Ok(Some(data[4..20]));
        }
        if part + recordLength > length {
          return Panic;
        }
        part := part + recordLength;
        i := i + 1;
      }
      return Ok(None);
    }
  }

  /** Whatever record matched, the library's walk returns bytes 4..20 of
      the whole buffer, and it never reports an error other than a panic. */
  lemma {:induction false} WalkWholeBuffer(buf: seq<u8>, at: nat, remaining: nat)
    ensures !Walk(buf, at, remaining, WholeBufferWindow).Err?
    ensures Walk(buf, at, remaining, WholeBufferWindow).Ok? &&
            Walk(buf, at, remaining, WholeBufferWindow).value.Some? ==>
              |buf| >= 20 && Walk(buf, at, remaining, WholeBufferWindow).value.value == buf[4..20]
    decreases remaining
  {
    if remaining > 0 && at + 2 < |buf| && buf[at + 1] == DESCRIPTOR_TYPE_DEVICE_CAPABILITY
       && !(buf[at + 2] == CONTAINER_ID_CODE && buf[at] == CONTAINER_ID_RECORD_LENGTH)
       && at + buf[at] <= |buf|
    {
      WalkWholeBuffer(buf, at + buf[at], remaining - 1);
    }
  }

  /** A found Container ID is bytes 4..20 of the BOS, independent of where
      the Container ID record sits. */
  lemma ContainerIdIsHeaderWindow(buf: seq<u8>)
    ensures !ContainerIdOf(buf).Err?
    ensures ContainerIdOf(buf).Ok? && ContainerIdOf(buf).value.Some? ==>
              |buf| >= 20 && ContainerIdOf(buf).value.value == buf[4..20]
  {
    if |buf| >= 5 {
      WalkWholeBuffer(buf, 5, buf[4]);
    }
  }

  /** A walk that meets a record whose descriptor type is not 0x10 before
      any Container ID record panics. */
  lemma FirstRecordNotCapability(buf: seq<u8>)
    requires |buf| >= 7 && buf[4] >= 1 && buf[6] != DESCRIPTOR_TYPE_DEVICE_CAPABILITY
    ensures ContainerIdOf(buf) == Panic && CorrectedContainerIdOf(buf) == Panic
  {
  }

  // ---------------------------------------------------------------------
  // Encoding a BOS, to state what a standard Container ID record yields.

  function Flatten(records: seq<seq<u8>>): (flat: seq<u8>)
    ensures |records| == 0 ==> flat == []
  {
    if |records| == 0 then [] else records[0] + Flatten(records[1..])
  }

  lemma {:induction false} FlattenAppend(a: seq<seq<u8>>, b: seq<seq<u8>>)
    ensures Flatten(a + b) == Flatten(a) + Flatten(b)
  {
    if |a| > 0 {
      assert (a + b)[1..] == a[1..] + b;
      FlattenAppend(a[1..], b);
    } else {
      assert a + b == b;
    }
  }

  /** A device-capability record of any type other than a Container ID
      record of length 20: its length byte is its length and its type
      byte is 0x10. */
  predicate OtherCapability(r: seq<u8>) {
    && 3 <= |r|
    && r[0] == |r|
    && r[1] == DESCRIPTOR_TYPE_DEVICE_CAPABILITY
    && !(r[2] == CONTAINER_ID_CODE && r[0] == CONTAINER_ID_RECORD_LENGTH)
  }

  /** A Container ID capability record laid out as in section 9.6.2.3 of
      USB 3.2: length 20, type 0x10, capability 0x04, a reserved byte and
      the 16-byte ID. */
  function ContainerIdRecord(uuid: seq<u8>): (r: seq<u8>)
    requires |uuid| == 16
    ensures |r| == 20 && r[4..] == uuid
  {
    [CONTAINER_ID_RECORD_LENGTH, DESCRIPTOR_TYPE_DEVICE_CAPABILITY, 0x04, 0] + uuid
  }

  /** A BOS that fits the library's buffer. */
  predicate Encodable(records: seq<seq<u8>>) {
    5 + |Flatten(records)| <= BOS_MAX && |records| < 0x100
  }

  /** The BOS header (length 5, type 0x0f, total length, record count)
      followed by the records. */
  function EncodeBos(records: seq<seq<u8>>): (buf: seq<u8>)
    requires Encodable(records)
    ensures |buf| == 5 + |Flatten(records)| && buf[4] == |records|
    ensures FromDataAccepted(buf)
  {
    var total := 5 + |Flatten(records)|;
    [5, DESCRIPTOR_TYPE_BOS, total % 0x100, total / 0x100, |records|] + Flatten(records)
  }

  /** One step of the walk over a record that is not a Container ID
      record and lies inside the buffer. */
  lemma WalkStep(buf: seq<u8>, at: nat, r: seq<u8>, remaining: nat, window: IdWindow)
    requires OtherCapability(r)
    requires at + |r| <= |buf| && buf[at..at + |r|] == r
    requires remaining >= 1
    ensures Walk(buf, at, remaining, window) == Walk(buf, at + |r|, remaining - 1, window)
  {
    assert buf[at] == r[0] && buf[at + 1] == r[1] && buf[at + 2] == r[2];
  }

  /** Walking over records that are not Container ID records lands on
      the byte after them. */
  lemma {:induction false} WalkSkipsOthers(buf: seq<u8>, at: nat, others: seq<seq<u8>>, remaining: nat, window: IdWindow)
    requires forall j :: 0 <= j < |others| ==> OtherCapability(others[j])
    requires at + |Flatten(others)| <= |buf| && buf[at..at + |Flatten(others)|] == Flatten(others)
    requires remaining >= |others|
    ensures Walk(buf, at, remaining, window) ==
            Walk(buf, at + |Flatten(others)|, remaining - |others|, window)
    decreases |others|
  {
    if |others| > 0 {
      var r, tail := others[0], Flatten(others[1..]);
      assert Flatten(others) == r + tail;
      SliceOfConcat(buf, at, r, tail);
      WalkStep(buf, at, r, remaining, window);
      WalkSkipsOthers(buf, at + |r|, others[1..], remaining - 1, window);
    }
  }

  /** A window of the buffer holding two pieces holds each piece. */
  lemma SliceOfConcat(buf: seq<u8>, at: nat, front: seq<u8>, back: seq<u8>)
    requires at + |front| + |back| <= |buf| && buf[at..at + |front| + |back|] == front + back
    ensures buf[at..at + |front|] == front
    ensures buf[at + |front|..at + |front| + |back|] == back
  {
    var whole := buf[at..at + |front| + |back|];
    assert buf[at..at + |front|] == whole[..|front|];
    assert buf[at + |front|..at + |front| + |back|] == whole[|front|..];
  }

  /** The ID the library reports for a BOS whose first Container ID
      record follows `others`: the header bytes 4..20, whose first byte
      is the record count, not the 16-byte ID of the record. */
  lemma ContainerIdOfStandardBos(others: seq<seq<u8>>, uuid: seq<u8>)
    requires forall j :: 0 <= j < |others| ==> OtherCapability(others[j])
    requires |uuid| == 16
    requires Encodable(others + [ContainerIdRecord(uuid)])
    ensures var buf := EncodeBos(others + [ContainerIdRecord(uuid)]);
            && |buf| >= 20
            && ContainerIdOf(buf) == Ok(Some(buf[4..20]))
            && CorrectedContainerIdOf(buf) == Ok(Some(uuid))
  {
    var buf := EncodeBos(others + [ContainerIdRecord(uuid)]);
    var n := |Flatten(others)|;
    StandardBosLayout(others, uuid);
    WalkSkipsOthers(buf, 5, others, buf[4], WholeBufferWindow);
    WalkSkipsOthers(buf, 5, others, buf[4], RecordWindow);
    WalkMeetsContainerId(buf, 5 + n, uuid, buf[4] - |others|, WholeBufferWindow);
    WalkMeetsContainerId(buf, 5 + n, uuid, buf[4] - |others|, RecordWindow);
  }

  /** A BOS whose records are none of them Container ID records has no
      Container ID, in the code as written and in the corrected walk. */
  lemma NoContainerIdRecord(others: seq<seq<u8>>)
    requires forall k :: 0 <= k < |others| ==> OtherCapability(others[k])
    requires Encodable(others)
    ensures ContainerIdOf(EncodeBos(others)) == Ok(None)
    ensures CorrectedContainerIdOf(EncodeBos(others)) == Ok(None)
  {
    var buf := EncodeBos(others);
    assert buf[5..5 + |Flatten(others)|] == Flatten(others);
    WalkSkipsOthers(buf, 5, others, buf[4], WholeBufferWindow);
    WalkSkipsOthers(buf, 5, others, buf[4], RecordWindow);
  }

  /** Where the pieces of a standard BOS sit: the other records from
      byte 5, then the Container ID record. */
  lemma StandardBosLayout(others: seq<seq<u8>>, uuid: seq<u8>)
    requires |uuid| == 16
    requires Encodable(others + [ContainerIdRecord(uuid)])
    ensures var buf := EncodeBos(others + [ContainerIdRecord(uuid)]);
            var n := |Flatten(others)|;
            && |buf| == 5 + n + 20 && buf[4] == |others| + 1
            && buf[5..5 + n] == Flatten(others)
            && buf[5 + n..5 + n + 20] == ContainerIdRecord(uuid)
  {
    var records := others + [ContainerIdRecord(uuid)];
    var buf := EncodeBos(records);
    FlattenAppend(others, [ContainerIdRecord(uuid)]);
    assert Flatten([ContainerIdRecord(uuid)]) == ContainerIdRecord(uuid);
    var n := |Flatten(others)|;
    assert buf[5..] == Flatten(others) + ContainerIdRecord(uuid);
    assert buf[5..5 + n] == buf[5..][..n];
    assert buf[5 + n..5 + n + 20] == buf[5..][n..];
  }

  /** A walk that meets a Container ID record ends there, with the ID
      its window selects. */
  lemma WalkMeetsContainerId(buf: seq<u8>, at: nat, uuid: seq<u8>, remaining: nat, window: IdWindow)
    requires |uuid| == 16 && at + 20 <= |buf| && buf[at..at + 20] == ContainerIdRecord(uuid)
    requires remaining >= 1
    ensures Walk(buf, at, remaining, window) ==
            if window == WholeBufferWindow then Ok(Some(buf[4..20])) else Ok(Some(uuid))
  {
    var record := ContainerIdRecord(uuid);
    assert buf[at] == record[0] && buf[at + 1] == record[1] && buf[at + 2] == record[2];
    assert buf[at + 4..at + 20] == record[4..];
  }

  /** The code's result differs from the record's ID: for the BOS holding
      only a Container ID record with ID a0 a1 .. af, the library returns
      01 14 10 04 00 a0 .. aa. */
  lemma ContainerIdWindowCounterexample()
    ensures var uuid := [0xa0, 0xa1, 0xa2, 0xa3, 0xa4, 0xa5, 0xa6, 0xa7,
                         0xa8, 0xa9, 0xaa, 0xab, 0xac, 0xad, 0xae, 0xaf];
            && ContainerIdOf(EncodeBos([ContainerIdRecord(uuid)])) ==
               Ok(Some([0x01, 0x14, 0x10, 0x04, 0x00] + uuid[..11]))
            && ContainerIdOf(EncodeBos([ContainerIdRecord(uuid)])) != Ok(Some(uuid))
  {
    var uuid: seq<u8> := [0xa0, 0xa1, 0xa2, 0xa3, 0xa4, 0xa5, 0xa6, 0xa7,
                          0xa8, 0xa9, 0xaa, 0xab, 0xac, 0xad, 0xae, 0xaf];
    assert [] + [ContainerIdRecord(uuid)] == [ContainerIdRecord(uuid)];
    ContainerIdOfStandardBos([], uuid);
    var buf := EncodeBos([ContainerIdRecord(uuid)]);
    assert Flatten([ContainerIdRecord(uuid)]) == ContainerIdRecord(uuid);
    assert buf[4..20] == [0x01, 0x14, 0x10, 0x04, 0x00] + uuid[..11];
    assert buf[4..20][0] != uuid[0];
  }
}
