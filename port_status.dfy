/** The port-status word of a hub port (`PortStatus` in the library): the
    status bits of a GET_STATUS reply, with a private flag in bit 15 that
    marks a SuperSpeed hub, whose power bit is bit 9 instead of bit 8. */
module PortStatusWord {

  const CONNECTION: bv16 := 0x0001
  const ENABLE: bv16 := 0x0002
  const SUSPEND: bv16 := 0x0004
  const OVERCURRENT: bv16 := 0x0008
  const RESET: bv16 := 0x0010
  const POWER: bv16 := 0x0100
  const SS_POWER: bv16 := 0x0200
  /** Not a USB bit: the library's own marker for a SuperSpeed hub. */
  const SUPER_SPEED: bv16 := 0x8000

  datatype PortStatus = PortStatus(word: bv16) {

    predicate Connection() { word & CONNECTION == CONNECTION }
    predicate Enabled() { word & ENABLE == ENABLE }
    predicate Suspended() { word & SUSPEND == SUSPEND }
    predicate Overcurrent() { word & OVERCURRENT == OVERCURRENT }
    predicate Reset() { word & RESET == RESET }

    /** The status word read as belonging to a SuperSpeed hub. */
    predicate SuperSpeed() { word & SUPER_SPEED == SUPER_SPEED }

    /** The logical power state, read from the power bit of the hub's
        generation as the word's own bit 15 tells it. */
    predicate Powered() {
      if SuperSpeed() then word & SS_POWER == SS_POWER else word & POWER == POWER
    }
  }

  /** `PortStatus::from_field`: the raw word, with bit 15 forced on for a
      SuperSpeed hub and otherwise left as the hub sent it. */
  function FromField(value: bv16, superSpeed: bool): (s: PortStatus)
    ensures s.word & 0x7fff == value & 0x7fff
    ensures s.SuperSpeed() <==> superSpeed || value & 0x8000 != 0
  {
    PortStatus(value | if superSpeed then SUPER_SPEED else 0)
  }

  /** Bits 0 to 4 of the decoded status are bits 0 to 4 of the raw word,
      whatever the hub's generation. */
  lemma LowBitsIgnoreGeneration(value: bv16, superSpeed: bool)
    ensures FromField(value, superSpeed).Connection() == (value & 0x0001 != 0)
    ensures FromField(value, superSpeed).Enabled() == (value & 0x0002 != 0)
    ensures FromField(value, superSpeed).Suspended() == (value & 0x0004 != 0)
    ensures FromField(value, superSpeed).Overcurrent() == (value & 0x0008 != 0)
    ensures FromField(value, superSpeed).Reset() == (value & 0x0010 != 0)
  {
  }

  /** `powered` consults bit 9 on a SuperSpeed hub and bit 8 otherwise;
      a non-SuperSpeed word whose own bit 15 is set is read as SuperSpeed
      as well, because the private flag shares the word with the hub's bits. */
  lemma PoweredBit(value: bv16, superSpeed: bool)
    ensures FromField(value, superSpeed).Powered() ==
            if superSpeed || value & 0x8000 != 0 then value & 0x0200 != 0
            else value & 0x0100 != 0
  {
  }

  /** The same raw bits give different power states on the two generations:
      0x0201 is powered on a SuperSpeed hub and unpowered on a USB 2.0 hub. */
  lemma PoweredDependsOnGeneration()
    ensures FromField(0x0201, true).Powered()
    ensures !FromField(0x0201, false).Powered()
    ensures FromField(0x0201, true).Connection() && FromField(0x0201, false).Connection()
  {
  }
}
