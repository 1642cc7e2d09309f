/** Arithmetic shared by the two circular block indices of concurrentqueue.h: slots of an array whose size is a
    power of two, addressed by block number, and the offset computation done on wrapped 64-bit words. */
module CircularIndex {
  import opened DequeueCounters
  import opened Prelude

  /** Number of blocks in the whole index range: 2^64 / BLOCK_SIZE. */
  const BLOCKS_IN_RANGE: int := 0x0800_0000_0000_0000

  function Pow2(e: nat): (p: nat)
    ensures p > 0
  {
    if e == 0 then 1 else 2 * Pow2(e - 1)
  }

  /** Slots repeat with every multiple of the size. */
  lemma {:induction false} SlotPeriod(k: nat, m: nat, size: nat)
    requires size > 0
    ensures Slot(k + m * size, size) == Slot(k, size)
  {
    if m > 0 {
      assert k + m * size == k + (m - 1) * size + size;
      SlotPeriod(k, m - 1, size);
      SlotAhead(k + (m - 1) * size, size, size);
    }
  }

  /** The first `size` numbers are their own slots. */
  lemma SlotSmall(k: nat, size: nat)
    requires k < size
    ensures Slot(k, size) == k
  {
    SlotAhead(0, k, size);
  }

  lemma {:induction false} SlotIsMod(k: nat, size: nat)
    requires size > 0
    ensures Slot(k, size) == k % size
  {
    if k == 0 {
      ModUnique(0, 0, 0, size);
    } else {
      SlotIsMod(k - 1, size);
      var q, r := (k - 1) / size, (k - 1) % size;
      assert k - 1 == q * size + r;
      if r + 1 < size { ModUnique(k, q, r + 1, size); } else { ModUnique(k, q + 1, 0, size); }
    }
  }

  lemma ModPlus(a: int, t: int, size: nat)
    requires size > 0
    ensures (a + t * size) % size == a % size
  {
    var q, r := a / size, a % size;
    assert a == q * size + r;
    assert a + t * size == (q + t) * size + r;
    ModUnique(a + t * size, q + t, r, size);
  }

  lemma ModUnique(a: int, q: int, r: int, size: nat)
    requires size > 0 && a == q * size + r && 0 <= r < size
    ensures a % size == r
  {
    var d := a / size - q;
    assert d * size == r - a % size;
    AtLeastOnce(d, size);
  }

  lemma AtLeastOnce(d: int, size: nat)
    ensures d >= 1 ==> d * size >= size
    ensures d <= -1 ==> d * size + size <= 0
  {}

  /** Less than `size` numbers in a row have different slots. */
  lemma SlotDistinct(a: nat, b: nat, size: nat)
    requires size > 0 && a < b < a + size
    ensures Slot(a, size) != Slot(b, size)
  {
    SlotAhead(a, b - a, size);
  }

  lemma {:induction false} PowSplit(e: nat, f: nat) returns (m: nat)
    requires e <= f
    ensures Pow2(f) == m * Pow2(e)
  {
    if e == f {
      m := 1;
    } else {
      var n := PowSplit(e, f - 1);
      m := 2 * n;
      assert 2 * (n * Pow2(e)) == m * Pow2(e);
    }
  }

  lemma RangeIsPower()
    ensures Pow2(59) == BLOCKS_IN_RANGE
  {
    assert Pow2(10) == 1024;
    assert Pow2(20) == 0x10_0000;
    assert Pow2(30) == 0x4000_0000;
    assert Pow2(40) == 0x100_0000_0000;
    assert Pow2(50) == 0x4_0000_0000_0000;
  }

  /** The first index of block number n, as a word. */
  function Base(n: nat): nat {
    if n == 0 then 0 else if Base(n - 1) + 32 == WORD64 then 0 else Base(n - 1) + 32
  }

  lemma {:induction false} BaseIsWrap(n: nat)
    ensures Base(n) == Wrap(32 * n)
  {
    if n > 0 {
      BaseIsWrap(n - 1);
      WrapStep(n - 1);
    }
  }

  /** A block starts at a multiple of 32. */
  lemma {:induction false} BaseAligned(n: nat)
    ensures Base(n) % 32 == 0 && Base(n) < WORD64
  {
    if n > 0 { BaseAligned(n - 1); }
  }

  lemma WrapStep(n: nat)
    ensures Wrap(32 * n + 32) == if Wrap(32 * n) + 32 == WORD64 then 0 else Wrap(32 * n) + 32
  {
    var q, r := n / BLOCKS_IN_RANGE, n % BLOCKS_IN_RANGE;
    assert 32 * n == q * WORD64 + 32 * r;
    ModUnique(32 * n, q, 32 * r, WORD64);
    if r + 1 < BLOCKS_IN_RANGE {
      ModUnique(32 * n + 32, q, 32 * r + 32, WORD64);
    } else {
      ModUnique(32 * n + 32, q + 1, 0, WORD64);
    }
  }

  /** The signed difference divided by the unsigned BLOCK_SIZE: the division is done on unsigned words. */
  function SourceOffset(base: nat, from: nat): nat { Wrap(base - from) / 32 }

  /** Where the source looks for the entry with key `base`, starting from a slot whose key is `from`. */
  function SourceSlot(slot: nat, base: nat, from: nat, size: nat): (i: nat)
    requires size > 0
    ensures i < size
  {
    (slot + SourceOffset(base, from)) % size
  }

  lemma OffsetMod(a: int, b: int)
    ensures SourceOffset(Wrap(32 * a), Wrap(32 * b)) == (a - b) % BLOCKS_IN_RANGE
  {
    WrapDifference(32 * a, 32 * b);
    var q, r := (a - b) / BLOCKS_IN_RANGE, (a - b) % BLOCKS_IN_RANGE;
    assert 32 * (a - b) == q * WORD64 + 32 * r;
    assert Wrap(32 * (a - b)) == 32 * r;
  }

  /** The source's lookup is exact: from the slot of block number l it reaches the slot of block number k,
      ahead or behind, because the size is a power of two that divides the range of block numbers. */
  lemma LookupSlot(k: nat, l: nat, first: nat, size: nat, order: nat)
    requires size == Pow2(order) && order <= 59
    ensures SourceSlot(Slot(l, size), Base(k + first), Base(l + first), size) == Slot(k, size)
  {
    BaseIsWrap(k + first);
    BaseIsWrap(l + first);
    OffsetMod(k + first, l + first);
    RangeIsPower();
    var m := PowSplit(order, 59);
    SlotIsMod(l, size);
    SlotIsMod(k, size);
    LookupMod(k, l, m, size, BLOCKS_IN_RANGE);
  }

  lemma LookupMod(k: nat, l: nat, m: nat, size: nat, range: nat)
    requires size > 0 && range > 0 && range == m * size
    ensures (l % size + (k - l) % range) % size == k % size
  {
    var p, q := l / size, (k - l) / range;
    assert l % size + (k - l) % range == k + (-p - q * m) * size by {
      assert l == p * size + l % size;
      assert k - l == q * range + (k - l) % range;
      assert q * range == (q * m) * size;
    }
    ModPlus(k, -p - q * m, size);
  }

  /** No allocation returns more entries than this: an entry takes 16 bytes. */
  const MAX_ENTRIES: int := 0x0400_0000_0000_0000

  lemma {:induction false} PowGrows(e: nat, f: nat)
    requires e <= f
    ensures Pow2(e) <= Pow2(f)
  {
    if e < f { PowGrows(e, f - 1); }
  }

  lemma OrderBelow(order: nat)
    ensures 2 * Pow2(order) <= MAX_ENTRIES <==> order + 1 <= 58
  {
    RangeIsPower();
    if order >= 58 { PowGrows(58, order); } else { PowGrows(order + 1, 58); }
  }

  lemma SizeBound(order: nat)
    requires order <= 58
    ensures Pow2(order) <= MAX_ENTRIES
  {
    RangeIsPower();
    PowGrows(order, 58);
  }

  lemma WrapAdd(x: int, d: int)
    ensures Wrap(Wrap(x) + d) == Wrap(x + d)
  {
    var q := x / WORD64;
    assert Wrap(x) + d == x + d + (-q) * WORD64;
    ModPlus(x + d, -q, WORD64);
  }

  /** The comparisons on wrapped words, while the tail is ahead of the head by at most half the range. */
  lemma WordsCompare(tail: nat, head: nat)
    requires 0 <= tail - head <= HALF64
    ensures !CircularLess(Wrap(tail), Wrap(head))
    ensures CircularLess(Wrap(head), Wrap(Wrap(tail) + 32)) <==> tail - head + 32 < HALF64
    ensures Wrap(Wrap(tail) - Wrap(head)) == tail - head
  {
    WrapDifference(tail, head);
    CircularAgrees(tail, head);
    FullCompare(tail, head);
    ModUnique(tail - head, 0, tail - head, WORD64);
  }

  lemma FullCompare(tail: nat, head: nat)
    requires 0 <= tail - head <= HALF64
    ensures CircularLess(Wrap(head), Wrap(Wrap(tail) + 32)) <==> tail - head + 32 < HALF64
  {
    WrapAdd(tail, 32);
    CircularAgrees(head, tail + 32);
  }

  lemma WrapBlock(x: nat)
    ensures Wrap(x) % 32 == x % 32 && Wrap(x) - x % 32 == Base(x / 32)
  {
    var q, r := x / WORD64, x % WORD64;
    assert x == q * WORD64 + r;
    assert x / 32 == q * BLOCKS_IN_RANGE + r / 32;
    assert 32 * (x / 32) == q * WORD64 + 32 * (r / 32);
    BaseIsWrap(x / 32);
  }

  // ----- Word arithmetic of the bulk operations -----

  /** w & ~(BLOCK_SIZE - 1) */
  function BlockStart(w: nat): nat { w - w % 32 }

  lemma WrapStart(y: int)
    ensures BlockStart(Wrap(y)) == Wrap(32 * (y / 32))
  {
    var q, r := y / WORD64, y % WORD64;
    assert y == q * WORD64 + r;
    assert y / 32 == q * BLOCKS_IN_RANGE + r / 32;
    ModPlus(32 * (r / 32), q, WORD64);
    ModUnique(32 * (r / 32), 0, 32 * (r / 32), WORD64);
    assert 32 * (y / 32) == 32 * (r / 32) + q * WORD64;
  }

  /** Blocks that hold the first `tail` elements. */
  function Blocks(tail: nat): nat { (tail + 31) / 32 }

  lemma WrapDiffers(x: int, y: int)
    requires x < y < x + WORD64
    ensures Wrap(x) != Wrap(y)
  {
    WrapDifference(y, x);
    ModUnique(y - x, 0, y - x, WORD64);
  }

  /** Where the source stops writing into the block at the tail: at its end, or at the new tail. */
  function StopIndex(at: nat, newTail: nat): nat {
    var stop := Wrap(BlockStart(at) + 32);
    if CircularLess(newTail, stop) then newTail else stop
  }

  lemma StopMeans(at: nat, newTail: nat)
    requires at <= newTail < at + HALF64
    ensures var end := 32 * (at / 32) + 32;
      StopIndex(Wrap(at), Wrap(newTail)) == Wrap(if newTail < end then newTail else end)
  {
    WrapStart(at);
    WrapAdd(32 * (at / 32), 32);
    CircularAgrees(newTail, 32 * (at / 32) + 32);
  }

  lemma NextBase(n: nat)
    ensures Wrap(Base(n) + 32) == Base(n + 1)
  {
    BaseAligned(n);
    if Base(n) + 32 == WORD64 {
      ModUnique(WORD64, 1, 0, WORD64);
    } else {
      ModUnique(Base(n) + 32, 0, Base(n) + 32, WORD64);
    }
  }

  lemma BlocksNeeded(tail: nat, count: nat)
    requires 32 * (Blocks(tail + count) - Blocks(tail)) < WORD64
    ensures Blocks(tail) <= Blocks(tail + count)
    ensures Wrap(BlockStart(Wrap(tail + count - 1)) - BlockStart(Wrap(tail - 1)))
      == 32 * (Blocks(tail + count) - Blocks(tail))
    ensures Wrap(BlockStart(Wrap(tail - 1)) + 32) == Base(Blocks(tail))
  {
    WrapStart(tail + count - 1);
    WrapStart(tail - 1);
    var a, b := Blocks(tail + count) - 1, Blocks(tail) - 1;
    assert (tail + count - 1) / 32 == a && (tail - 1) / 32 == b;
    WrapDifference(32 * a, 32 * b);
    ModUnique(32 * (a - b), 0, 32 * (a - b), WORD64);
    BaseIsWrap(Blocks(tail));
    WrapAdd(32 * b, 32);
  }

  /** Base of the k-th block that a bulk enqueue starts, counted from the tail. */
  function BulkBase(tail: nat, k: nat): nat { Wrap(BlockStart(Wrap(tail - 1)) + 32 * (k + 1)) }

  lemma BulkBaseIs(tail: nat, k: nat)
    ensures BulkBase(tail, k) == Base(Blocks(tail) + k)
  {
    WrapStart(tail - 1);
    WrapAdd(32 * ((tail - 1) / 32), 32 * (k + 1));
    assert (tail - 1) / 32 + 1 == Blocks(tail);
    BaseIsWrap(Blocks(tail) + k);
  }

  /** Walking k slots on from the slot of a block leads to that of the k-th block after it. */
  function Walk(slot: nat, k: nat, size: nat): nat { if k == 0 then slot else NextSlot(Walk(slot, k - 1, size), size) }

  lemma {:induction false} WalkReaches(n: nat, k: nat, size: nat)
    requires size > 0
    ensures Walk(Slot(n, size), k, size) == Slot(n + k, size)
  {
    if k > 0 {
      WalkReaches(n, k - 1, size);
      SlotNext(n + k - 1, size);
    }
  }

  /** All 32 elements of block number n have been dequeued. */
  ghost predicate DrainedBlock(done: set<nat>, n: nat) {
    forall x :: 32 * n <= x < 32 * n + 32 ==> x in done
  }
}
