/** The control byte shared by every PDO frame (motor_hal_types.h):
    bit 7 enable, bit 6 bus on, bit 5 clear error, bits 4..1 mode, bit 0 reserved. */
module Byte0 {
  import opened Bytes

  const ENABLE: bv8 := 0x80
  const BUS_ON: bv8 := 0x40
  const CLR_ERR: bv8 := 0x20
  const MODE_MASK: bv8 := 0x1E
  const RESERVED: bv8 := 0x01

  function ModePart(mode: bv8): bv8 {
    (mode & 0x0F) << 1
  }

  function Build(enable: bool, busOn: bool, clearErr: bool, mode: bv8): bv8 {
    (if enable then ENABLE else 0) | (if busOn then BUS_ON else 0) | (if clearErr then CLR_ERR else 0)
    | ModePart(mode)
  }

  predicate Enabled(b: bv8) {
    b & ENABLE != 0
  }

  predicate BusOn(b: bv8) {
    b & BUS_ON != 0
  }

  predicate ClearsError(b: bv8) {
    b & CLR_ERR != 0
  }

  function Mode(b: bv8): bv8 {
    (b & MODE_MASK) >> 1
  }

  predicate ReservedSet(b: bv8) {
    b & RESERVED != 0
  }

  /** The getters recover what was built; only the low four bits of the mode survive. */
  lemma BuildRoundTrip(enable: bool, busOn: bool, clearErr: bool, mode: bv8)
    ensures var b := Build(enable, busOn, clearErr, mode);
            && Enabled(b) == enable && BusOn(b) == busOn && ClearsError(b) == clearErr
            && Mode(b) == mode & 0x0F && !ReservedSet(b)
  {
  }

  /** The five fields determine the byte. */
  lemma FieldsDetermine(b: bv8)
    ensures b == Build(Enabled(b), BusOn(b), ClearsError(b), Mode(b)) | (b & RESERVED)
  {
  }

  function ToByte(b: bv8): byte {
    b as int
  }

  function FromByte(x: byte): bv8 {
    x as bv8
  }

  lemma ByteRoundTrip(b: bv8)
    ensures FromByte(ToByte(b)) == b
  {
  }

  /** The layout of the byte in numbers: bits 7, 6 and 5, and the mode from bit 1. */
  lemma Layout(enable: bool, busOn: bool, clearErr: bool, mode: bv8)
    ensures ToByte(Build(enable, busOn, clearErr, mode))
            == (if enable then 128 else 0) + (if busOn then 64 else 0) + (if clearErr then 32 else 0)
               + 2 * (mode as int % 16)
  {
    ModeInNumbers(mode);
    var m := ModePart(mode);
    assert m <= 0x1E && m & 0xE0 == 0;
    SetBits(enable, busOn, clearErr, m);
  }

  lemma ModeInNumbers(mode: bv8)
    ensures ModePart(mode) as int == 2 * (mode as int % 16)
  {
  }

  lemma SetBits(enable: bool, busOn: bool, clearErr: bool, m: bv8)
    requires m & 0xE0 == 0
    ensures ToByte((if enable then ENABLE else 0) | (if busOn then BUS_ON else 0)
                   | (if clearErr then CLR_ERR else 0) | m)
            == (if enable then 128 else 0) + (if busOn then 64 else 0) + (if clearErr then 32 else 0) + m as int
  {
  }
}
