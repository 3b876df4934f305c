/** Byte-level arithmetic of the CEC codec.

A C expression stored into a `__u8` keeps its low eight bits.  Shifts and masks
of `bv8`/`bv16` values have exactly that meaning, so every store below is written
at the width at which the C code stores it. */
module CecBytes {

  function Hi(x: bv16): bv8 { (x >> 8) as bv8 }

  function Lo(x: bv16): bv8 { (x & 0xff) as bv8 }

  /** Two bytes, most significant first. */
  function Word(hi: bv8, lo: bv8): (x: bv16)
    ensures Hi(x) == hi && Lo(x) == lo
  {
    ((hi as bv16) << 8) | (lo as bv16)
  }

  lemma WordHiLo(x: bv16)
    ensures Word(Hi(x), Lo(x)) == x
  {
  }

  /** Three bytes of a 32-bit value; the top byte is not transmitted. */
  function Byte2(x: bv32): bv8 { ((x >> 16) & 0xff) as bv8 }

  function Byte1(x: bv32): bv8 { ((x >> 8) & 0xff) as bv8 }

  function Byte0(x: bv32): bv8 { (x & 0xff) as bv8 }

  function Triple(b2: bv8, b1: bv8, b0: bv8): (x: bv32)
    ensures Byte2(x) == b2 && Byte1(x) == b1 && Byte0(x) == b0
  {
    ((b2 as bv32) << 16) | ((b1 as bv32) << 8) | (b0 as bv32)
  }

  /** The three transmitted bytes determine the value modulo 2^24. */
  lemma TripleBytes(x: bv32)
    ensures Triple(Byte2(x), Byte1(x), Byte0(x)) == x & 0xff_ffff
  {
  }

  /** Binary coded decimal as the timer messages write it: the tens digit is
      shifted into the high nibble and truncated to eight bits. */
  function Bcd(v: bv8): bv8 { ((v / 10) << 4) | (v % 10) }

  function UnBcd(b: bv8): bv8 { (b >> 4) * 10 + (b & 0xf) }

  /** What a BCD field keeps of a byte. */
  function Mod160(v: bv8): bv8 { v % 160 }

  /** A byte survives the BCD field modulo 160, so every value below 160
      (hence every legal hour and minute) survives exactly. */
  lemma BcdRoundTrip(v: bv8)
    ensures UnBcd(Bcd(v)) == Mod160(v)
    ensures Mod160(v) == v <==> v < 160
  {
  }

  lemma BcdMod(v: bv8)
    ensures Bcd(Mod160(v)) == Bcd(v)
  {
  }
}
