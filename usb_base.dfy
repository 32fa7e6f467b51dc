/** Shared vocabulary of the hub-control library: bytes and words, the
    library's error enum, the outcome of an operation that may also panic,
    and the abstract USB transport that the library drives. */
module UsbBase {

  /** An unsigned byte (Rust `u8`). */
  type u8 = x: int | 0 <= x < 0x100

  /** An unsigned 16-bit integer used as a number (Rust `u16`). */
  type u16 = x: int | 0 <= x < 0x1_0000

  /** `u16::from_le_bytes([lo, hi])` as a bit pattern: the low byte is `lo`,
      the high byte is `hi`. */
  function FromLeBytes(lo: u8, hi: u8): (w: bv16)
    ensures w & 0x00ff == lo as bv16
    ensures w >> 8 == hi as bv16
  {
    (lo as bv16) | ((hi as bv16) << 8)
  }

  /** `u16::from_le_bytes([lo, hi])` as a number. */
  function LeValue(lo: u8, hi: u8): (n: u16)
    ensures n % 0x100 == lo && n / 0x100 == hi
  {
    lo + 0x100 * hi
  }

  /** The transfer failures the USB layer reports; only `Fault` is produced
      by the library itself, every other kind is carried through. */
  datatype TransferError = Fault | OtherTransferError(code: nat)

  /** The library's error enum, variant for variant (the spelling
      `InvalidRespone` is the library's own). `UsbError` carries the
      operating-system error of a failed device open. */
  datatype Error =
    | UsbError(osError: nat)
    | UsbTransferError(transfer: TransferError)
    | IoError
    | InvalidDeviceClass
    | InvalidRespone
    | InvalidPort

  /** What a call returns: a value, an `Error`, or a panic (a failed
      `assert!`, an out-of-range slice, an `unwrap` of an error). */
  datatype Outcome<T> = Ok(value: T) | Err(error: Error) | Panic

  /** The `bRequest`/`wValue`/`wIndex` part of a control transfer's setup
      packet, with its type and recipient. */
  datatype ControlType = Standard | Class
  datatype Recipient = Device | Other
  datatype Control = Control(controlType: ControlType, recipient: Recipient,
                             request: u8, value: u16, index: u16)

  /** A control-IN transfer: the setup packet and the size of the buffer the
      host offers for the reply. */
  datatype InRequest = InRequest(setup: Control, bufferLength: nat)

  /** A control-OUT transfer: the setup packet and the data stage. */
  datatype OutRequest = OutRequest(setup: Control, data: seq<u8>)

  /** What a control-IN transfer delivered: the bytes written into the
      buffer (the transferred length is their count), or a failure. */
  datatype InReply = Received(bytes: seq<u8>) | TransferFailed(error: TransferError)

  /** An opened device, seen through the transfers the library makes:
      the `bcdUSB` of its device descriptor, the reply it gives to each
      control-IN request, and the outcome of each control-OUT request
      (`None` when it succeeded). */
  datatype UsbDevice = UsbDevice(usbVersion: u16,
                                 controlIn: InRequest -> InReply,
                                 controlOut: OutRequest -> Option<TransferError>)

  datatype Option<T> = None | Some(value: T)

  /** The outcome of opening a device. */
  datatype DeviceOpen = Opened(device: UsbDevice) | OpenFailed(osError: nat)

  /** The snapshot of one enumerated device (the fields of the USB layer's
      device information that the program reads). */
  datatype DeviceInfo = DeviceInfo(
    busnum: u8,
    deviceAddress: u8,
    vendorId: u16,
    productId: u16,
    deviceClass: u8,
    subclass: u8,
    protocol: u8,
    deviceVersion: u16,
    manufacturer: Option<string>,
    product: Option<string>,
    serialNumber: Option<string>,
    portChain: seq<u8>)

  /** The host side of the USB layer: opening a device yields a handle or
      an operating-system error. */
  datatype Host = Host(open: DeviceInfo -> DeviceOpen)

  /** The USB hub device class. */
  const DEVICE_CLASS_HUB: u8 := 0x09
}
