/** The offset arithmetic of the BFS headers.  All operands are 32-bit unsigned
and every operation wraps; `le32_to_cpu` is the identity of a little-endian host. */
module BfsLayout {

  const BSIZE: int := 512
  const ROOT_INO: int := 2
  const INODE_SIZE: int := 64
  const WRAP: int := 0x1_0000_0000

  type u32 = n: int | 0 <= n < 0x1_0000_0000

  function Wrap(n: int): u32 { n % WRAP }

  /** `BFS_INO2OFF`. */
  function Ino2Off(ino: int): u32 { Wrap(Wrap((ino - ROOT_INO) * INODE_SIZE) + BSIZE) }

  /** `BFS_OFF2INO` of an unsigned 32-bit offset. */
  function Off2Ino(off: u32): int { Wrap(off - BSIZE) / INODE_SIZE + ROOT_INO }

  lemma WrapStep(a: int, k: int)
    ensures Wrap(a + k * WRAP) == Wrap(a)
  {
    WrapIs(a + k * WRAP, k + a / WRAP, a % WRAP);
  }

  lemma WrapIs(n: int, q: int, r: int)
    requires n == q * WRAP + r && 0 <= r < WRAP
    ensures Wrap(n) == r
  {
  }

  /** The inode table of a 32-bit address space holds 2^26 inodes: an inode
      number of any size comes back modulo that. */
  lemma InodeRoundTrip(ino: int)
    ensures Off2Ino(Ino2Off(ino)) == 2 + (ino - 2) % 0x400_0000
  {
    var k := ino - ROOT_INO;
    var a := k * INODE_SIZE;
    var q, r := k / 0x400_0000, k % 0x400_0000;
    assert a == q * WRAP + r * INODE_SIZE;
    WrapIs(a, q, r * INODE_SIZE);
    assert Wrap(a) == r * INODE_SIZE;
    var s := Wrap(a) + BSIZE;
    if s >= WRAP { WrapStep(s - WRAP, 1); assert Wrap(s) == s - WRAP; WrapStep(Wrap(s) - BSIZE, 1); }
    assert Wrap(Wrap(s) - BSIZE) == Wrap(a);
  }

  /** Hence the round trip is exact for just the inodes the table can hold,
      which include every 16-bit inode number of the disk format. */
  lemma InodeRoundTripExact(ino: int)
    ensures Off2Ino(Ino2Off(ino)) == ino <==> 2 <= ino < 2 + 0x400_0000
  {
    InodeRoundTrip(ino);
  }

  /** Inode 2 stands at the first byte behind the superblock, and every further one
      64 bytes on, as far as 32 bits reach. */
  lemma InodePlace(ino: int)
    requires 2 <= ino && 512 + 64 * (ino - 2) < 0x1_0000_0000
    ensures Ino2Off(ino) == 512 + 64 * (ino - 2)
  {
  }

  /** `o` is the offset of an inode at or behind the start of the table. */
  predicate Boundary(o: int) { o >= 512 && (o - 512) % 64 == 0 }

  /** For an offset inside the table the other round trip yields the greatest
      inode boundary not behind it. */
  lemma OffsetRoundTrip(off: u32)
    requires off >= 512
    ensures var o := Ino2Off(Off2Ino(off));
            && Boundary(o) && o <= off
            && forall b: int | Boundary(b) && b <= off :: b <= o
  {
    var k := (off - BSIZE) / INODE_SIZE;
    assert Off2Ino(off) == k + ROOT_INO;
    assert Ino2Off(Off2Ino(off)) == k * INODE_SIZE + BSIZE;
    forall b: int | Boundary(b) && b <= off
      ensures b <= k * INODE_SIZE + BSIZE
    {
      assert b == (b - BSIZE) / INODE_SIZE * INODE_SIZE + BSIZE;
    }
  }

  datatype Inode = Inode(sblock: u32, eblock: u32, eoffset: u32)

  function NonzeroFileSize(i: Inode): u32 { Wrap(Wrap(i.eoffset + 1) - Wrap(i.sblock * BSIZE)) }

  function FileSize(i: Inode): u32 { if i.sblock == 0 then 0 else NonzeroFileSize(i) }

  function FileBlocks(i: Inode): u32 { if i.sblock == 0 then 0 else Wrap(Wrap(i.eblock + 1) - i.sblock) }

  /** A file occupies `eoffset + 1 - sblock * 512` bytes behind its first block. */
  predicate Nonempty(i: Inode) { i.sblock != 0 && i.sblock * 512 <= i.eoffset }

  /** An empty file: no first block, whatever the other fields hold; or fields
      that leave no byte, or no block, between start and end. */
  lemma EmptyFile(i: Inode)
    ensures FileSize(i) == 0 <==> i.sblock == 0 || (i.eoffset + 1 - i.sblock * 512) % 0x1_0000_0000 == 0
    ensures FileBlocks(i) == 0 <==> i.sblock == 0 || (i.eblock + 1 - i.sblock) % 0x1_0000_0000 == 0
  {
    WrapDifference(i.eoffset + 1, i.sblock * 512);
    WrapDifference(i.eblock + 1, i.sblock);
    InRangeUnchanged(i.sblock);
    hide Wrap;
    ZeroWrap(i.eoffset + 1 - i.sblock * 512);
    ZeroWrap(i.eblock + 1 - i.sblock);
  }

  lemma ZeroWrap(n: int)
    ensures Wrap(n) == n % 0x1_0000_0000
  {
  }

  lemma InRangeUnchanged(n: u32)
    ensures Wrap(n) == n
  {
  }

  lemma WrapDifference(a: int, b: int)
    ensures Wrap(Wrap(a) - Wrap(b)) == Wrap(a - b)
  {
    var k := b / WRAP - a / WRAP;
    assert Wrap(a) - Wrap(b) == (a - b) + k * WRAP;
    WrapStep(a - b, k);
  }

  lemma SizeOfNonempty(i: Inode)
    requires Nonempty(i)
    ensures FileSize(i) == i.eoffset + 1 - i.sblock * 512
  {
    assert Wrap(i.sblock * BSIZE) == i.sblock * BSIZE;
    if i.eoffset + 1 == WRAP {
      assert Wrap(i.eoffset + 1) == 0;
      WrapStep(-(i.sblock * BSIZE), 1);
    }
  }

  /** The block count of a nonempty file is its size rounded up to blocks exactly
      when the end block is the block of the end offset. */
  lemma BlocksMatchSize(i: Inode)
    requires Nonempty(i)
    ensures FileBlocks(i) == (FileSize(i) + 511) / 512 <==> i.eblock == i.eoffset / 512
  {
    SizeOfNonempty(i);
    var last := i.eoffset / BSIZE;
    RoundUp(i.eoffset, i.sblock);
    assert i.sblock <= last < 0x80_0000;
    WrapInjective(i.eblock, last, i.sblock);
  }

  lemma RoundUp(e: int, s: int)
    requires 0 <= e && 0 <= s
    ensures (e + 1 - s * BSIZE + BSIZE - 1) / BSIZE == e / BSIZE + 1 - s
    ensures s * BSIZE <= e ==> s <= e / BSIZE
  {
    var q, r := e / BSIZE, e % BSIZE;
    assert e + 1 - s * BSIZE + BSIZE - 1 == (q + 1 - s) * BSIZE + r;
  }

  lemma WrapInjective(e: u32, last: u32, s: u32)
    requires s <= last < 0x80_0000
    ensures Wrap(Wrap(e + 1) - s) == last + 1 - s <==> e == last
  {
    if e + 1 == WRAP {
      assert Wrap(e + 1) == 0;
      var t: int := s;
      WrapStep(-t, 1);
    } else {
      assert Wrap(e + 1) == e + 1;
      var t: int := s;
      if e + 1 < s { WrapStep(e + 1 - t, 1); }
    }
  }
}
