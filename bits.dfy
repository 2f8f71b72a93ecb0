/** Machine words of the Zynq host program: 8-bit bytes (`u8`), 16-bit
    shorts and 32-bit register words (`u32`), all as bit-vectors, so that
    the shifts and masks of the C code are stated exactly as written.

    A C `short` is represented by its 16-bit two's-complement pattern;
    `Signed` gives the integer value C associates with that pattern. */
module Bits {

  type Byte = bv8
  type Short = bv16
  type Word = bv32

  /** Byte `k` (0 = least significant) of a register word:
      `(w >> 8*k) & 0xFF`, truncated to `u8`. */
  function ByteOf(w: Word, k: nat): Byte
    requires k < 4
  {
    if k == 0 then (w & 0xFF) as Byte
    else if k == 1 then ((w >> 8) & 0xFF) as Byte
    else if k == 2 then ((w >> 16) & 0xFF) as Byte
    else ((w >> 24) & 0xFF) as Byte
  }

  /** The word whose bytes, least significant first, are b0, b1, b2, b3. */
  function Pack(b0: Byte, b1: Byte, b2: Byte, b3: Byte): (w: Word)
    ensures ByteOf(w, 0) == b0 && ByteOf(w, 1) == b1
    ensures ByteOf(w, 2) == b2 && ByteOf(w, 3) == b3
  {
    (b0 as Word) | ((b1 as Word) << 8) | ((b2 as Word) << 16) | ((b3 as Word) << 24)
  }

  /** A word is determined by its four bytes. */
  lemma PackOfBytes(w: Word)
    ensures Pack(ByteOf(w, 0), ByteOf(w, 1), ByteOf(w, 2), ByteOf(w, 3)) == w
  {
  }

  /** Low and high byte of a short, the order in which the ADXL345
      stores an axis reading (DATAx0 then DATAx1). */
  function Lo(s: Short): Byte { (s & 0xFF) as Byte }
  function Hi(s: Short): Byte { (s >> 8) as Byte }

  /** `(short)(lo | hi << 8)`: the short whose little-endian bytes are lo, hi. */
  function Join(lo: Byte, hi: Byte): (s: Short)
    ensures Lo(s) == lo && Hi(s) == hi
  {
    (lo as Short) | ((hi as Short) << 8)
  }

  lemma JoinOfBytes(s: Short)
    ensures Join(Lo(s), Hi(s)) == s
  {
  }

  /** The `int` value of a C `short` with bit pattern `s`: the unique
      integer in the 16-bit signed range whose two's-complement encoding
      is `s`. */
  function Signed(s: Short): (v: int)
    ensures -0x8000 <= v < 0x8000
  {
    if s < 0x8000 then s as int else s as int - 0x10000
  }

  /** The two's-complement encoding of `Signed(s)` is `s` again. */
  lemma SignedEncodes(s: Short)
    ensures (if Signed(s) < 0 then Signed(s) + 0x10000 else Signed(s)) as Short == s
  {
  }

  /** A C `short` is negative exactly when the top bit of its high byte is set. */
  lemma SignedNegativeIffHighBit(lo: Byte, hi: Byte)
    ensures Signed(Join(lo, hi)) < 0 <==> hi >= 0x80
  {
  }

  /** A C `short` is negative exactly when its top bit is set. */
  lemma SignedNegativeIffTopBit(s: Short)
    ensures Signed(s) < 0 <==> s >= 0x8000
  {
  }

  /** Integer promotion of a `short` to a 32-bit `int`: sign extension,
      which fills bits 16..31 with the top bit (see `SignedNegativeIffTopBit`). */
  function SignExtend(s: Short): (w: Word)
    ensures (w & 0xFFFF) as Short == s
    ensures w >> 16 == (if s >= 0x8000 then 0xFFFF else 0)
  {
    if s < 0x8000 then s as Word else (s as Word) | 0xFFFF_0000
  }

  /** `(short)w`: truncation of a 32-bit value to its low 16 bits
      (the conversion GCC performs for ARM). */
  function Truncate16(w: Word): (s: Short)
    ensures Lo(s) == ByteOf(w, 0) && Hi(s) == ByteOf(w, 1)
  {
    (w & 0xFFFF) as Short
  }
}
