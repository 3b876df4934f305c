/** The lock pointers of the VIA DRM shared area: `XVMCLOCKPTR` rounds the address
of `XvMCLockArea` up to a cache line and steps one line per lock. */
module ViaLocks {

  const NR_XVMC_LOCKS := 5
  const CACHELINE := 64

  /** `sizeof(XvMCLockArea)`. */
  const LOCK_AREA_SIZE := 384

  /** `sizeof(struct drm_hw_lock)`: the lock word and its padding. */
  const HW_LOCK_SIZE := 64

  /** The range of `unsigned long`. */
  const ADDRESSES := 0x1_0000_0000_0000_0000

  /** `~(VIA_MAX_CACHELINE_SIZE - 1)`, sign-extended to `unsigned long`. */
  const MASK := ADDRESSES - CACHELINE

  /** C's `&`, bit by bit. */
  function And(x: nat, y: nat): nat {
    if x == 0 || y == 0 then 0 else 2 * And(x / 2, y / 2) + (x % 2) * (y % 2)
  }

  function RoundDown(x: nat): nat { x - x % CACHELINE }

  function Pow2(n: nat): (p: nat)
    ensures p > 0
  {
    if n == 0 then 1 else 2 * Pow2(n - 1)
  }

  lemma {:induction false} AndOnes(x: nat, n: nat)
    requires x < Pow2(n)
    ensures And(x, Pow2(n) - 1) == x
  {
    if n > 0 && x > 0 {
      AndOnes(x / 2, n - 1);
      assert (Pow2(n) - 1) / 2 == Pow2(n - 1) - 1 && (Pow2(n) - 1) % 2 == 1;
    }
  }

  lemma AndEven(x: nat, y: nat)
    ensures And(x, 2 * y) == 2 * And(x / 2, y)
  {
  }

  /** On every `unsigned long` the mask of the macro rounds down to a cache line. */
  lemma MaskClearsLowBits(x: nat)
    requires x < ADDRESSES
    ensures And(x, MASK) == RoundDown(x) && Aligned(And(x, MASK)) && And(x, MASK) <= x < And(x, MASK) + CACHELINE
  {
    hide And, Pow2;
    var ones := 0x3ff_ffff_ffff_ffff;
    AndEven(x, 32 * ones);
    AndEven(x / 2, 16 * ones);
    AndEven(x / 4, 8 * ones);
    AndEven(x / 8, 4 * ones);
    AndEven(x / 16, 2 * ones);
    AndEven(x / 32, ones);
    Pow58();
    AndOnes(x / 64, 58);
  }

  lemma Pow58()
    ensures Pow2(58) == 0x400_0000_0000_0000
  {
    hide Pow2;
    Pow2Small();
    Pow2Sum(10, 10);
    Pow2Sum(20, 20);
    Pow2Sum(40, 10);
    Pow2Sum(50, 8);
  }

  lemma Pow2Small()
    ensures Pow2(8) == 256 && Pow2(10) == 1024
  {
    assert Pow2(5) == 32;
  }

  lemma {:induction false} Pow2Sum(a: nat, b: nat)
    ensures Pow2(a + b) == Pow2(a) * Pow2(b)
  {
    if b > 0 {
      Pow2Sum(a, b - 1);
      assert Pow2(a + b) == 2 * Pow2(a + (b - 1));
    }
  }

  /** The macro, in wrapping `unsigned long` arithmetic. */
  function LockPtr(area: nat, lock: nat): nat {
    (And((area + (CACHELINE - 1)) % ADDRESSES, MASK) + CACHELINE * lock) % ADDRESSES
  }

  /** The area, an object in memory, does not wrap around the address space. */
  predicate Allocated(area: nat) { area + LOCK_AREA_SIZE <= ADDRESSES }

  predicate Aligned(p: nat) { p % CACHELINE == 0 }

  lemma LockPtrIs(area: nat, lock: nat)
    requires Allocated(area) && lock < NR_XVMC_LOCKS
    ensures LockPtr(area, lock) == RoundDown(area + (CACHELINE - 1)) + CACHELINE * lock
  {
    hide And;
    MaskClearsLowBits(area + (CACHELINE - 1));
  }

  /** Every lock is aligned to a cache line and lies wholly inside the area. */
  lemma LocksAlignedInside(area: nat, lock: nat)
    requires Allocated(area) && lock < NR_XVMC_LOCKS
    ensures LockPtr(area, lock) % 64 == 0
    ensures area <= LockPtr(area, lock) && LockPtr(area, lock) + 64 <= area + 384
    // the first lock is the first aligned one, and the others follow line by line
    ensures LockPtr(area, lock) < area + 64 * (lock + 1)
  {
    hide LockPtr;
    LockPtrIs(area, lock);
  }

  /** Two locks never share a byte, nor a cache line. */
  lemma LocksDisjoint(area: nat, i: nat, j: nat)
    requires Allocated(area) && i < j < NR_XVMC_LOCKS
    ensures LockPtr(area, i) + 64 <= LockPtr(area, j)
    ensures LockPtr(area, i) / 64 < LockPtr(area, j) / 64
  {
    hide LockPtr;
    LockPtrIs(area, i);
    LockPtrIs(area, j);
    LocksAlignedInside(area, i);
    LocksAlignedInside(area, j);
  }

  /** The one cache line of slack in the area is needed exactly when the area
      itself is not aligned. */
  lemma SlackNeeded(area: nat)
    requires Allocated(area)
    ensures LockPtr(area, NR_XVMC_LOCKS - 1) + HW_LOCK_SIZE <= area + CACHELINE * NR_XVMC_LOCKS <==> Aligned(area)
  {
    hide LockPtr;
    LockPtrIs(area, NR_XVMC_LOCKS - 1);
  }
}
