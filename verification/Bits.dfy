/** Bitwise operators on bytes, and the arithmetic they amount to. */
module Bits {
  import opened Collections

  /** The operators on single bytes. */
  function Or(mask: bv8, b: Byte): Byte {
    (mask | (b as bv8)) as int
  }

  function And(b: Byte, mask: bv8): Byte {
    ((b as bv8) & mask) as int
  }

  lemma SameByte(b: Byte)
    ensures (b as bv8) as int == b
  {
    var n := (b as bv8) as int;
    if n < b {
    } else if b < n {
    }
  }

  lemma OrOfBits(v: bv8)
    ensures v as int < 16 ==> (0x70 | v) as int == 0x70 + v as int
    ensures v as int < 64 ==> (0x80 | v) as int == 0x80 + v as int
    ensures (v & 0x3F) as int == v as int % 64
  {
  }

  /** The masks the generators use leave six bits, and the ors they use add. */
  lemma OrIsSum(b: Byte)
    ensures b < 16 ==> Or(0x70, b) == 0x70 + b
    ensures b < 64 ==> Or(0x80, b) == 0x80 + b
    ensures And(b, 0x3F) == b % 64
  {
    SameByte(b);
    OrOfBits(b as bv8);
  }
}
