/** Machine words, kept as integers within their range. */
module Words {

  type Byte = x: int | 0 <= x < 0x100
  type Uint16 = x: int | 0 <= x < 0x1_0000
  type Uint32 = x: int | 0 <= x < 0x1_0000_0000
  type Int32 = x: int | -0x8000_0000 <= x < 0x8000_0000

  /** Conversion to an unsigned type keeps the value modulo the width. */
  function ToUint8(x: int): Byte { x % 0x100 }
  function ToUint16(x: int): Uint16 { x % 0x1_0000 }
  function ToUint32(x: int): Uint32 { x % 0x1_0000_0000 }

  /** Conversion of a 32-bit pattern to `int` (two's complement). */
  function ToInt32(x: int): Int32 {
    var u := ToUint32(x);
    if u < 0x8000_0000 then u else u - 0x1_0000_0000
  }
}
