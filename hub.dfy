/** A USB hub as the library sees it (`Hub`): built from an enumerated
    device of the hub class by reading its hub descriptor and, if it has
    one, its BOS; then queried for port status and asked to switch port
    power. Each transfer goes through the `UsbDevice` the open returned. */
module Hubs {
  import opened UsbBase
  import opened PortStatusWord
  import opened HubDescriptors
  import Bos

  /** `bcdUSB` of USB 3.0; only a higher version counts as SuperSpeed. */
  const USB_VERSION_3_0: u16 := 0x0300
  const GET_STATUS: u8 := 0x00
  const CLEAR_FEATURE: u8 := 0x01
  const SET_FEATURE: u8 := 0x03
  /** Feature selector PORT_POWER (Table 11-17 of USB 2.0). */
  const PORT_POWER: u16 := 0x0008
  /** Size of the buffer offered for the BOS descriptor. */
  const BOS_BUFFER_LENGTH: nat := 4096

  /** The decoded state of an opened hub; the device handle itself is
      passed to each operation beside it. */
  datatype Hub = Hub(info: DeviceInfo, descriptor: HubDescriptor, superSpeed: bool,
                     containerId: Option<seq<u8>>)
  {
    function PortCount(): u8 { descriptor.portCount }
  }

  /** The standard GET_DESCRIPTOR request for the BOS descriptor. */
  function BosRequest(): (r: InRequest)
    ensures r.setup == Control(Standard, Device, GET_DESCRIPTOR, 0x0f00, 0)
    ensures r.bufferLength == BOS_BUFFER_LENGTH
  {
    InRequest(Control(Standard, Device, GET_DESCRIPTOR, Bos.DESCRIPTOR_TYPE_BOS * 0x100, 0),
              BOS_BUFFER_LENGTH)
  }

  /** `get_bos_description` on the bytes: a failed transfer or a reply
      shorter than 5 bytes is an error; a longer reply either passes the
      checks of `from_data` or panics there. */
  function BosBytesOf(device: UsbDevice): (r: Outcome<seq<u8>>)
    ensures r.Ok? ==> Bos.FromDataAccepted(r.value) && device.controlIn(BosRequest()) == Received(r.value)
    ensures r.Err? <==> device.controlIn(BosRequest()).TransferFailed? ||
                        |device.controlIn(BosRequest()).bytes| < 5
    ensures device.controlIn(BosRequest()).TransferFailed? ==>
              r == Err(UsbTransferError(device.controlIn(BosRequest()).error))
    ensures device.controlIn(BosRequest()).Received? && |device.controlIn(BosRequest()).bytes| < 5 ==>
              r == Err(InvalidRespone)
    ensures device.controlIn(BosRequest()).Received? && Bos.FromDataAccepted(device.controlIn(BosRequest()).bytes) ==>
              r == Ok(device.controlIn(BosRequest()).bytes)
    ensures (device.controlIn(BosRequest()).Received? && |device.controlIn(BosRequest()).bytes| >= 5 &&
             !Bos.FromDataAccepted(device.controlIn(BosRequest()).bytes)) ==> r == Panic
  {
    match device.controlIn(BosRequest())
    case TransferFailed(e) => Err(UsbTransferError(e))
    case Received(buf) =>
      if |buf| >= 5 then
        if Bos.FromDataAccepted(buf) then Ok(buf) else Panic
      else Err(InvalidRespone)
  }

  /** `Hub::get_bos_description`: reads the BOS and hands a reply of at
      least 5 bytes to `from_data`. */
  method GetBosDescription(device: UsbDevice) returns (r: Outcome<Bos.BinaryObjectStoreDescriptor>)
    ensures r.Ok? <==> BosBytesOf(device).Ok?
    ensures r.Panic? <==> BosBytesOf(device).Panic?
    ensures r.Err? ==> r.error == BosBytesOf(device).error
    ensures r.Ok? ==> fresh(r.value) && fresh(r.value.data) && r.value.Valid() &&
                      r.value.Bytes() == BosBytesOf(device).value
  {
    var reply := device.controlIn(BosRequest());
    if reply.TransferFailed? {
      return Err(UsbTransferError(reply.error));
    }
    var buf := reply.bytes;
    if |buf| >= 5 {
      r := Bos.BinaryObjectStoreDescriptor.FromData(buf);
    } else {
      r := Err(InvalidRespone);
    }
  }

  /** The Container ID step of `from_device_info`: any error while reading
      the BOS gives no ID; a panic while decoding it is a panic. */
  function ContainerIdFromBos(device: UsbDevice): Outcome<Option<seq<u8>>> {
    match BosBytesOf(device)
    case Err(_) => Ok(None)
    case Panic => Panic
    case Ok(buf) => Bos.ContainerIdOf(buf)
  }

  /** `Hub::from_device_info`, given the outcome of opening the device. */
  function HubOf(info: DeviceInfo, open: DeviceOpen): (r: Outcome<Hub>)
    ensures info.deviceClass != DEVICE_CLASS_HUB ==> r == Err(InvalidDeviceClass)
    ensures info.deviceClass == DEVICE_CLASS_HUB && open.OpenFailed? ==> r == Err(UsbError(open.osError))
    ensures r.Ok? ==> && open.Opened?
                      && r.value.info == info
                      && r.value.superSpeed == (open.device.usbVersion > USB_VERSION_3_0)
                      && GetHubDescription(open.device, r.value.superSpeed) == Ok(r.value.descriptor)
                      && r.value.PortCount() <= MAX_PORTS
                      && (BosBytesOf(open.device).Err? ==> r.value.containerId == None)
    ensures info.deviceClass == DEVICE_CLASS_HUB && open.Opened? ==>
              var superSpeed := open.device.usbVersion > USB_VERSION_3_0;
              var descriptor := GetHubDescription(open.device, superSpeed);
              var bos := BosBytesOf(open.device);
              && (descriptor.Err? ==> r == Err(descriptor.error))
              && (descriptor.Ok? && bos.Err? ==> r == Ok(Hub(info, descriptor.value, superSpeed, None)))
              && (descriptor.Ok? && bos.Panic? ==> r == Panic)
              && (descriptor.Ok? && bos.Ok? && Bos.ContainerIdOf(bos.value).Panic? ==> r == Panic)
              && (descriptor.Ok? && bos.Ok? && Bos.ContainerIdOf(bos.value).Ok? ==>
                    r == Ok(Hub(info, descriptor.value, superSpeed, Bos.ContainerIdOf(bos.value).value)))
    ensures r.Ok? && r.value.containerId.Some? ==>
              BosBytesOf(open.device).Ok? && |BosBytesOf(open.device).value| >= 20 &&
              r.value.containerId.value == BosBytesOf(open.device).value[4..20]
  {
    if info.deviceClass != DEVICE_CLASS_HUB then Err(InvalidDeviceClass)
    else match open
      case OpenFailed(osError) => Err(UsbError(osError))
      case Opened(device) =>
        var superSpeed := device.usbVersion > USB_VERSION_3_0;
        match GetHubDescription(device, superSpeed)
        case Err(e) => Err(e)
        case Panic => Panic
        case Ok(descriptor) =>
          match ContainerIdFromBos(device)
          case Ok(containerId) =>
            ContainerIdFound(device);
            Ok(Hub(info, descriptor, superSpeed, containerId))
          case Err(e) => Err(e)
          case Panic => Panic
  }

  /** A Container ID is found only in a BOS that was read and accepted,
      and is its bytes 4..20. */
  lemma ContainerIdFound(device: UsbDevice)
    ensures !ContainerIdFromBos(device).Err?
    ensures ContainerIdFromBos(device).Ok? && ContainerIdFromBos(device).value.Some? ==>
              && BosBytesOf(device).Ok?
              && |BosBytesOf(device).value| >= 20
              && ContainerIdFromBos(device).value.value == BosBytesOf(device).value[4..20]
  {
    if BosBytesOf(device).Ok? {
      Bos.ContainerIdIsHeaderWindow(BosBytesOf(device).value);
    }
  }

  /** `Hub::from_device_info` as the library runs it: the class check
      before the device is opened, the hub descriptor, then the BOS through
      the stored descriptor and its record walk. */
  method FromDeviceInfo(info: DeviceInfo, open: DeviceOpen) returns (r: Outcome<Hub>)
    ensures r == HubOf(info, open)
  {
    if info.deviceClass != DEVICE_CLASS_HUB {
      return Err(InvalidDeviceClass);
    }
    if open.OpenFailed? {
      return Err(UsbError(open.osError));
    }
    var device := open.device;
    var superSpeed := device.usbVersion > USB_VERSION_3_0;
    var hubDescriptor := GetHubDescription(device, superSpeed);
    if hubDescriptor.Err? {
      return Err(hubDescriptor.error);
    }
    var containerId: Option<seq<u8>>;
    var bos := GetBosDescription(device);
    match bos {
      case Ok(descriptor) =>
        var found := descriptor.ContainerId();
        match found {
          case Ok(id) => containerId := id;
          case Err(e) => return Err(e);
          case Panic => return Panic;
        }
      case Err(_) =>
        containerId := None;
      case Panic =>
        return Panic;
    }
    return Ok(Hub(info, hubDescriptor.value, superSpeed, containerId));
  }

  /** The class GET_STATUS request for one port. */
  function PortStatusRequest(port: u8): (r: InRequest)
    ensures r.setup == Control(Class, Other, GET_STATUS, 0, port) && r.bufferLength == 4
  {
    InRequest(Control(Class, Other, GET_STATUS, 0, port), 4)
  }

  /** `Hub::port_status`: rejects only ports above the port count (port 0
      is queried), expects exactly 4 bytes and decodes the first two; the
      port-change word in bytes 2-3 is read and dropped. */
  function GetPortStatus(hub: Hub, device: UsbDevice, port: u8): (r: Outcome<PortStatus>)
    ensures !r.Panic?
    ensures r == Err(InvalidPort) <==> port > hub.PortCount()
    ensures r.Ok? <==> && port <= hub.PortCount()
                       && device.controlIn(PortStatusRequest(port)).Received?
                       && |device.controlIn(PortStatusRequest(port)).bytes| == 4
    ensures r.Ok? ==> var b := device.controlIn(PortStatusRequest(port)).bytes;
                      r.value == FromField(FromLeBytes(b[0], b[1]), hub.superSpeed)
    ensures (&& port <= hub.PortCount()
             && device.controlIn(PortStatusRequest(port)).Received?
             && |device.controlIn(PortStatusRequest(port)).bytes| != 4)
            ==> r == Err(UsbTransferError(Fault))
    ensures (port <= hub.PortCount() && device.controlIn(PortStatusRequest(port)).TransferFailed?)
            ==> r == Err(UsbTransferError(device.controlIn(PortStatusRequest(port)).error))
  {
    if port > hub.PortCount() then Err(InvalidPort)
    else match device.controlIn(PortStatusRequest(port))
      case TransferFailed(e) => Err(UsbTransferError(e))
      case Received(buf) =>
        if |buf| == 4 then Ok(FromField(FromLeBytes(buf[0], buf[1]), hub.superSpeed))
        else Err(UsbTransferError(Fault))
  }

  /** The class request that switches one port's power: SET_FEATURE to
      turn it on, CLEAR_FEATURE to turn it off, PORT_POWER as the feature,
      the port as the index and no data stage. */
  function PortPowerRequest(port: u8, on: bool): OutRequest {
    OutRequest(Control(Class, Other, if on then SET_FEATURE else CLEAR_FEATURE, PORT_POWER, port), [])
  }

  /** `Hub::set_port_power`, returning the request it sent: refused unless
      the hub switches ports individually, whatever the port, and refused
      for ports above the port count (port 0 is sent). */
  function SetPortPower(hub: Hub, device: UsbDevice, port: u8, on: bool): (r: Outcome<OutRequest>)
    ensures !r.Panic?
    ensures LogicalPowerSwitchingModeOf(hub.descriptor) != IndividualPort ==> r == Err(InvalidPort)
    ensures port > hub.PortCount() ==> r == Err(InvalidPort)
    ensures r.Ok? <==> && LogicalPowerSwitchingModeOf(hub.descriptor) == IndividualPort
                       && port <= hub.PortCount()
                       && device.controlOut(PortPowerRequest(port, on)).None?
    ensures r.Ok? ==> && r.value.setup.controlType == Class && r.value.setup.recipient == Other
                      && r.value.setup.request == (if on then 0x03 else 0x01)
                      && r.value.setup.value == 0x0008 && r.value.setup.index == port
                      && r.value.data == []
    ensures (&& LogicalPowerSwitchingModeOf(hub.descriptor) == IndividualPort
             && port <= hub.PortCount()
             && device.controlOut(PortPowerRequest(port, on)).Some?)
            ==> r == Err(UsbTransferError(device.controlOut(PortPowerRequest(port, on)).value))
  {
    if LogicalPowerSwitchingModeOf(hub.descriptor) != IndividualPort then Err(InvalidPort)
    else if port > hub.PortCount() then Err(InvalidPort)
    else
      var request := PortPowerRequest(port, on);
      match device.controlOut(request)
      case Some(e) => Err(UsbTransferError(e))
      case None => Ok(request)
  }
}
