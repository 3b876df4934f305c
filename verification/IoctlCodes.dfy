/** The ioctl number layout.  Number and type have eight bits each; an
architecture may override the widths of size and direction. */
module IoctlCodes {

  datatype Fields = Fields(dir: bv32, kind: bv32, nr: bv32, size: bv32)

  /** An override: `size` and `dir` bits that fit above number and type. */
  predicate Widths(sizeBits: bv32, dirBits: bv32) {
    sizeBits <= 16 && dirBits <= 16 - sizeBits
  }

  function Mask(bits: bv32): bv32
    requires bits <= 16
  {
    (1 << bits) - 1
  }

  /** `_IOC` */
  function Pack(f: Fields, sizeBits: bv32): bv32
    requires sizeBits <= 16
  {
    (f.dir << (16 + sizeBits)) | (f.kind << 8) | f.nr | (f.size << 16)
  }

  /** `_IOC_DIR`, `_IOC_TYPE`, `_IOC_NR` and `_IOC_SIZE` */
  function Unpack(x: bv32, sizeBits: bv32, dirBits: bv32): Fields
    requires Widths(sizeBits, dirBits)
  {
    Fields((x >> (16 + sizeBits)) & Mask(dirBits), (x >> 8) & 0xff, x & 0xff, (x >> 16) & Mask(sizeBits))
  }

  predicate InRange(f: Fields, sizeBits: bv32, dirBits: bv32)
    requires Widths(sizeBits, dirBits)
  {
    f.dir <= Mask(dirBits) && f.kind <= 0xff && f.nr <= 0xff && f.size <= Mask(sizeBits)
  }

  lemma UnpackInRange(x: bv32, sizeBits: bv32, dirBits: bv32)
    requires Widths(sizeBits, dirBits)
    ensures InRange(Unpack(x, sizeBits, dirBits), sizeBits, dirBits)
  {
  }

  lemma UnpackOfPack(f: Fields, sizeBits: bv32, dirBits: bv32)
    requires Widths(sizeBits, dirBits) && InRange(f, sizeBits, dirBits)
    ensures Unpack(Pack(f, sizeBits), sizeBits, dirBits) == f
  {
  }

  /** Where the fields are: the numbers of an in-range packing, by division. */
  lemma PackedNumber(f: Fields, sizeBits: bv32, dirBits: bv32)
    requires Widths(sizeBits, dirBits) && InRange(f, sizeBits, dirBits)
    ensures var x := Pack(f, sizeBits);
            && x % 0x100 == f.nr && x / 0x100 % 0x100 == f.kind
            && x / 0x1_0000 == (f.dir << sizeBits) | f.size
  {
  }

  /** The widths that are not overridden: 14 bits of size below 2 of direction. */
  lemma DefaultWidths(f: Fields)
    requires f.nr < 0x100 && f.kind < 0x100 && f.size < 0x4000 && f.dir < 4
    ensures Pack(f, 14) == f.dir * 0x4000_0000 + f.size * 0x1_0000 + f.kind * 0x100 + f.nr
  {
  }

  /** Every field comes back exactly when every field is in range. */
  lemma PackUnpack(f: Fields, sizeBits: bv32, dirBits: bv32)
    requires Widths(sizeBits, dirBits)
    ensures Unpack(Pack(f, sizeBits), sizeBits, dirBits) == f <==> InRange(f, sizeBits, dirBits)
  {
    hide Unpack, Pack, InRange;
    UnpackInRange(Pack(f, sizeBits), sizeBits, dirBits);
    if InRange(f, sizeBits, dirBits) { UnpackOfPack(f, sizeBits, dirBits); }
  }

  predicate Survives(x: bv32, sizeBits: bv32, dirBits: bv32)
    requires Widths(sizeBits, dirBits)
  {
    Pack(Unpack(x, sizeBits, dirBits), sizeBits) == x
  }

  lemma PackOfUnpack(x: bv32, sizeBits: bv32, dirBits: bv32)
    requires Widths(sizeBits, dirBits) && dirBits == 16 - sizeBits
    ensures Survives(x, sizeBits, dirBits)
  {
  }

  lemma TopBitLost(sizeBits: bv32, dirBits: bv32)
    requires Widths(sizeBits, dirBits) && dirBits != 16 - sizeBits
    ensures !Survives(0x8000_0000, sizeBits, dirBits)
  {
  }

  ghost predicate AllSurvive(sizeBits: bv32, dirBits: bv32)
    requires Widths(sizeBits, dirBits)
  {
    forall x: bv32 :: Survives(x, sizeBits, dirBits)
  }

  lemma AllSurviveFull(sizeBits: bv32, dirBits: bv32)
    requires Widths(sizeBits, dirBits) && dirBits == 16 - sizeBits
    ensures AllSurvive(sizeBits, dirBits)
  {
    hide Survives;
    forall x: bv32
      ensures Survives(x, sizeBits, dirBits)
    {
      PackOfUnpack(x, sizeBits, dirBits);
    }
  }

  lemma NotAllSurvive(sizeBits: bv32, dirBits: bv32)
    requires Widths(sizeBits, dirBits) && dirBits != 16 - sizeBits
    ensures !AllSurvive(sizeBits, dirBits)
  {
    hide Survives;
    TopBitLost(sizeBits, dirBits);
  }

  /** Every number comes back exactly when the widths use all 32 bits. */
  lemma UnpackPack(sizeBits: bv32, dirBits: bv32)
    requires Widths(sizeBits, dirBits)
    ensures AllSurvive(sizeBits, dirBits) <==> dirBits == 16 - sizeBits
  {
    hide *;
    if dirBits == 16 - sizeBits {
      AllSurviveFull(sizeBits, dirBits);
    } else {
      NotAllSurvive(sizeBits, dirBits);
    }
  }
}
