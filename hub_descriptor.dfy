/** The hub class descriptor (`HubDescriptor`): how it is requested, how a
    reply is checked and decoded, and the logical power-switching mode
    read from its characteristics word (section 11.23.2.1 of the USB 2.0
    specification; the SuperSpeed variant is in chapter 10 of USB 3.2). */
module HubDescriptors {
  import opened UsbBase

  const GET_DESCRIPTOR: u8 := 0x06
  const DESCRIPTOR_TYPE_HUB: u8 := 0x29
  const DESCRIPTOR_TYPE_SUPERSPEED_HUB: u8 := 0x2a
  /** Port counts above this are read as zero. */
  const MAX_PORTS: u8 := 15

  datatype HubDescriptor = HubDescriptor(portCount: u8, characteristics: bv16)

  /** Logical power-switching mode, bits D1..D0 of the characteristics
      (Table 11-13 of USB 2.0); `Unknown` is the library's `None`. */
  datatype LogicalPowerSwitchingMode = Unknown | Common | IndividualPort

  function LogicalPowerSwitchingModeOf(d: HubDescriptor): (mode: LogicalPowerSwitchingMode)
    ensures mode == IndividualPort <==> d.characteristics & 0x0003 == 1
    ensures mode == Common <==> d.characteristics & 0x0003 == 0
    ensures mode == Unknown <==> d.characteristics & 0x0003 >= 2
  {
    match d.characteristics & 0x0003
    case 1 => IndividualPort
    case 0 => Common
    case _ => Unknown
  }

  /** The class GET_DESCRIPTOR request for the hub descriptor: a 12-byte
      SuperSpeed hub descriptor or a 9-byte USB 2.0 one. */
  function HubDescriptorRequest(superSpeed: bool): (r: InRequest)
    ensures r.setup.controlType == Class && r.setup.recipient == Device
    ensures r.setup.request == GET_DESCRIPTOR && r.setup.index == 0
    ensures superSpeed ==> r.setup.value == 0x2a00 && r.bufferLength == 12
    ensures !superSpeed ==> r.setup.value == 0x2900 && r.bufferLength == 9
  {
    var descriptorType: u8 := if superSpeed then DESCRIPTOR_TYPE_SUPERSPEED_HUB else DESCRIPTOR_TYPE_HUB;
    var requestSize: nat := if superSpeed then 12 else 9;
    InRequest(Control(Class, Device, GET_DESCRIPTOR, descriptorType * 0x100, 0), requestSize)
  }

  /** Decodes a reply of the requested size: the port count from byte 2
      (clamped to zero above 15) and the characteristics from bytes 3-4. */
  function DecodeHubDescriptor(buf: seq<u8>): (d: HubDescriptor)
    requires |buf| >= 5
    ensures d.portCount <= MAX_PORTS
    ensures d.portCount == buf[2] || (d.portCount == 0 && buf[2] > MAX_PORTS)
    ensures d.characteristics & 0x00ff == buf[3] as bv16 && d.characteristics >> 8 == buf[4] as bv16
  {
    HubDescriptor(if buf[2] <= MAX_PORTS then buf[2] else 0, FromLeBytes(buf[3], buf[4]))
  }

  /** `Hub::get_hub_description` on the reply the device gives: a failed
      transfer is reported as such, and a reply of any length other than
      the requested size is `InvalidRespone`. */
  function GetHubDescription(device: UsbDevice, superSpeed: bool): (r: Outcome<HubDescriptor>)
    ensures !r.Panic?
    ensures r.Ok? <==> device.controlIn(HubDescriptorRequest(superSpeed)).Received? &&
                       |device.controlIn(HubDescriptorRequest(superSpeed)).bytes| ==
                         (if superSpeed then 12 else 9)
    ensures r.Ok? ==> r.value == DecodeHubDescriptor(device.controlIn(HubDescriptorRequest(superSpeed)).bytes)
    ensures r.Err? && r.error == InvalidRespone ==> device.controlIn(HubDescriptorRequest(superSpeed)).Received?
    ensures device.controlIn(HubDescriptorRequest(superSpeed)).TransferFailed? ==>
              r == Err(UsbTransferError(device.controlIn(HubDescriptorRequest(superSpeed)).error))
    ensures (device.controlIn(HubDescriptorRequest(superSpeed)).Received? &&
             |device.controlIn(HubDescriptorRequest(superSpeed)).bytes| != (if superSpeed then 12 else 9))
              ==> r == Err(InvalidRespone)
  {
    var request := HubDescriptorRequest(superSpeed);
    match device.controlIn(request)
    case TransferFailed(e) => Err(UsbTransferError(e))
    case Received(buf) =>
      if |buf| != request.bufferLength then Err(InvalidRespone)
      else Ok(DecodeHubDescriptor(buf))
  }
}
