/**
 * The kernel's input event record (struct input_event) as the dumper sees it,
 * together with the fixed-width integer types and the unsigned reinterpretations
 * that printf's %X conversions apply to its fields.
 */
module Evdev {

  newtype uint16 = x: int | 0 <= x < 0x1_0000
  newtype int32 = x: int | -0x8000_0000 <= x < 0x8000_0000

  const TWO_32: nat := 0x1_0000_0000
  const TWO_64: nat := 0x1_0000_0000_0000_0000

  /** One input event: the timeval timestamp, the event type, code and value. */
  datatype Event = Event(sec: int, usec: int, evType: uint16, code: uint16, value: int32)

  /** The bit pattern of a signed 32-bit value read as unsigned (what %X prints). */
  function AsUnsigned32(v: int32): (u: nat)
    ensures u < TWO_32
    ensures (u - v as int) % TWO_32 == 0
    ensures v >= 0 ==> u == v as int
  {
    if v < 0 then v as int + TWO_32 else v as int
  }

  /** The cast (unsigned long long) x: reduction of x modulo 2^64. */
  function AsUnsigned64(x: int): (u: nat)
    ensures u < TWO_64
    ensures (u - x) % TWO_64 == 0
    ensures 0 <= x < TWO_64 ==> u == x
  {
    x % TWO_64
  }
}
