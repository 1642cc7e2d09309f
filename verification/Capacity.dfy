/** ReaderWriterQueue of readerwriterqueue.h used from one thread at a time: what it holds, and the promise of its
    constructor that maxSize elements fit without further allocation. SpscQueue is the same queue used from two
    threads at once. Indices that the source masks with size - 1 are wrapped at size. */
module Capacity {
  import opened Prelude
  import opened CircularIndex
  import opened PowerOfTwo

  datatype Block<+T> = Block(
    size: nat, front: nat, tail: nat, localFront: nat, localTail: nat, next: nat, data: seq<Option<T>>)

  /** How far index b is ahead of index a. */
  function Ahead(a: nat, b: nat, size: nat): int { if a <= b then b - a else b - a + size }

  function At(front: nat, k: nat, size: nat): int { if front + k < size then front + k else front + k - size }

  /** The block holds xs from its front on; the shadow indices are behind by no more than there is room for. */
  ghost predicate Holds<T>(b: Block<T>, xs: seq<T>) {
    && 2 <= b.size == |b.data| && b.front < b.size && b.tail < b.size && b.localFront < b.size && b.localTail < b.size
    && |xs| == Ahead(b.front, b.tail, b.size)
    && Ahead(b.localFront, b.front, b.size) + |xs| < b.size && Ahead(b.front, b.localTail, b.size) <= |xs|
    && forall k :: 0 <= k < |xs| ==> b.data[At(b.front, k, b.size)] == Some(xs[k])
  }

  function MakeBlock<T>(size: nat, next: nat): Block<T> {
    Block(size, 0, 0, 0, 0, next, seq(size, _ => None))
  }

  function Flat<T>(held: seq<seq<T>>): seq<T> {
    if held == [] then [] else held[0] + Flat(held[1..])
  }

  // ----- Steps inside one block -----

  /** If the source finds no room even after it has refreshed its shadow of the front, the block is full. */
  predicate NoRoom<T>(b: Block<T>) {
    NextSlot(b.tail, b.size) == b.localFront && NextSlot(b.tail, b.size) == b.front
  }

  lemma NoRoomMeansFull<T>(b: Block<T>, xs: seq<T>)
    requires Holds(b, xs)
    ensures NoRoom(b) <==> |xs| == b.size - 1 && NextSlot(b.tail, b.size) == b.localFront
    ensures NextSlot(b.tail, b.size) != b.localFront ==> |xs| < b.size - 1
    ensures NextSlot(b.tail, b.size) == b.front <==> |xs| == b.size - 1
  {}

  function Pushed<T>(b: Block<T>, x: T): Block<T>
    requires b.tail < |b.data|
  {
    b.(data := b.data[b.tail := Some(x)], tail := NextSlot(b.tail, b.size))
  }

  lemma HoldsPushed<T>(b: Block<T>, xs: seq<T>, x: T)
    requires Holds(b, xs) && Ahead(b.localFront, b.front, b.size) + |xs| < b.size - 1
    ensures Holds(Pushed(b, x), xs + [x])
  {}

  lemma HoldsRefreshed<T>(b: Block<T>, xs: seq<T>)
    requires Holds(b, xs)
    ensures Holds(b.(localFront := b.front), xs) && Holds(b.(localTail := b.tail), xs)
  {}

  function Popped<T>(b: Block<T>): Block<T>
    requires b.front < |b.data|
  {
    b.(data := b.data[b.front := None], front := NextSlot(b.front, b.size))
  }

  lemma HoldsPopped<T>(b: Block<T>, xs: seq<T>)
    requires Holds(b, xs) && xs != [] && b.localTail != b.front
    ensures b.data[b.front] == Some(xs[0]) && Holds(Popped(b), xs[1..])
  {}

  // ----- The ring -----

  /** Position i of the ring: its block holds held[i] and links to the next. */
  ghost predicate SpotOk<T>(blocks: seq<Block<T>>, ring: seq<nat>, held: seq<seq<T>>, least: nat, i: nat) {
    && i < |ring| == |held| && ring[i] < |blocks| && Holds(blocks[ring[i]], held[i]) && least <= blocks[ring[i]].size
    && blocks[ring[i]].next < |blocks| && blocks[ring[i]].next == (if i + 1 < |ring| then ring[i + 1] else ring[0])
  }

  /** The ring from the front block on. Blocks strictly between front and tail are full, the tail block is not
      empty unless it is the front block, and the blocks behind the tail are empty. */
  ghost predicate RingOk<T>(blocks: seq<Block<T>>, ring: seq<nat>, held: seq<seq<T>>, p: nat, least: nat) {
    && p < |ring| == |held| && 2 <= least
    && (forall i {:trigger SpotOk(blocks, ring, held, least, i)} ::
          0 <= i < |ring| ==> SpotOk(blocks, ring, held, least, i))
    && (forall i, j :: 0 <= i < j < |ring| ==> ring[i] != ring[j])
    && (forall i :: 0 < i < p && ring[i] < |blocks| ==> |held[i]| == blocks[ring[i]].size - 1)
    && (forall i :: p < i < |ring| ==> held[i] == []) && (p > 0 ==> held[p] != [])
  }

  /** Replacing the block at position i by one with the same size and link. */
  lemma ReplaceSpot<T>(
    blocks: seq<Block<T>>, ring: seq<nat>, held: seq<seq<T>>, p: nat, least: nat, i: nat, b: Block<T>, xs: seq<T>)
    requires RingOk(blocks, ring, held, p, least) && i < |ring| && ring[i] < |blocks| && Holds(b, xs)
    requires b.size == blocks[ring[i]].size && b.next == blocks[ring[i]].next
    requires i == 0 || xs == held[i] || (i == p && xs != [])
    ensures RingOk(blocks[ring[i] := b], ring, held[i := xs], p, least)
  {
    forall j {:trigger SpotOk(blocks[ring[i] := b], ring, held[i := xs], least, j)} | 0 <= j < |ring|
      ensures SpotOk(blocks[ring[i] := b], ring, held[i := xs], least, j)
    {
      assert SpotOk(blocks, ring, held, least, j);
    }
  }

  /** The tail moves on to the next block of the ring, which was empty. */
  lemma TailOn<T>(blocks: seq<Block<T>>, ring: seq<nat>, held: seq<seq<T>>, p: nat, least: nat, b: Block<T>, x: T)
    requires RingOk(blocks, ring, held, p, least) && p + 1 < |ring| && ring[p + 1] < |blocks| && ring[p] < |blocks|
    requires Holds(b, [x]) && b.size == blocks[ring[p + 1]].size && b.next == blocks[ring[p + 1]].next
    requires |held[p]| == blocks[ring[p]].size - 1
    ensures RingOk(blocks[ring[p + 1] := b], ring, held[p + 1 := [x]], p + 1, least)
  {
    var blocks', held' := blocks[ring[p + 1] := b], held[p + 1 := [x]];
    forall j {:trigger SpotOk(blocks', ring, held', least, j)} | 0 <= j < |ring|
      ensures SpotOk(blocks', ring, held', least, j)
    {
      assert SpotOk(blocks, ring, held, least, j);
    }
  }

  /** A new block is linked in behind a full tail block that is followed by the front block. */
  lemma RingExtended<T>(
    blocks: seq<Block<T>>, blocks': seq<Block<T>>, ring: seq<nat>, held: seq<seq<T>>, p: nat, least: nat, x: T)
    requires RingOk(blocks, ring, held, p, least) && p + 1 == |ring| && ring[p] < |blocks|
    requires |held[p]| == blocks[ring[p]].size - 1 && |blocks'| == |blocks| + 1
    requires forall i :: 0 <= i < |blocks| ==>
      blocks'[i] == if i == ring[p] then blocks[i].(next := |blocks|) else blocks[i]
    requires Holds(blocks'[|blocks|], [x]) && least <= blocks'[|blocks|].size
    requires blocks'[|blocks|].next == blocks[ring[p]].next
    ensures RingOk(blocks', ring + [|blocks|], held + [[x]], p + 1, least)
  {
    var ring', held' := ring + [|blocks|], held + [[x]];
    forall j {:trigger SpotOk(blocks', ring', held', least, j)} | 0 <= j < |ring'|
      ensures SpotOk(blocks', ring', held', least, j) {
      assert SpotOk(blocks, ring, held, least, p);
      if j < |ring| { assert SpotOk(blocks, ring, held, least, j); }
    }
    forall i, j | 0 <= i < j < |ring'| ensures ring'[i] != ring'[j] {
      assert SpotOk(blocks, ring, held, least, i);
    }
    forall i | 0 < i < p + 1 && ring'[i] < |blocks'| ensures |held'[i]| == blocks'[ring'[i]].size - 1 {
      assert ring'[i] == ring[i] && held'[i] == held[i] && SpotOk(blocks, ring, held, least, i);
    }
  }

  /** The front moves on to the next block; the one it leaves is empty. */
  lemma FrontOn<T>(blocks: seq<Block<T>>, ring: seq<nat>, held: seq<seq<T>>, p: nat, least: nat)
    requires RingOk(blocks, ring, held, p, least) && p > 0 && held[0] == []
    ensures RingOk(blocks, ring[1..] + [ring[0]], held[1..] + [held[0]], p - 1, least)
  {
    var ring', held' := ring[1..] + [ring[0]], held[1..] + [held[0]];
    forall j {:trigger SpotOk(blocks, ring', held', least, j)} | 0 <= j < |ring'|
      ensures SpotOk(blocks, ring', held', least, j)
    {
      assert SpotOk(blocks, ring, held, least, if j + 1 < |ring| then j + 1 else 0);
    }
    forall i | 0 < i < p - 1 && ring'[i] < |blocks| ensures |held'[i]| == blocks[ring'[i]].size - 1 {
      assert ring'[i] == ring[i + 1];
    }
  }

  // ----- Contents -----

  lemma {:induction false} FlatAppend<T>(a: seq<seq<T>>, b: seq<seq<T>>)
    ensures Flat(a + b) == Flat(a) + Flat(b)
  {
    if a == [] {
      assert a + b == b;
    } else {
      assert (a + b)[1..] == a[1..] + b;
      FlatAppend(a[1..], b);
      Associate(a[0], Flat(a[1..]), Flat(b));
    }
  }

  lemma {:induction false} FlatEmpty<T>(held: seq<seq<T>>)
    requires forall i :: 0 <= i < |held| ==> held[i] == []
    ensures Flat(held) == []
  {
    if held != [] { FlatEmpty(held[1..]); }
  }

  /** Appending to the last block that holds anything appends to the contents. */
  lemma {:induction false} FlatPushed<T>(held: seq<seq<T>>, i: nat, x: T)
    requires i < |held| && forall j :: i < j < |held| ==> held[j] == []
    ensures Flat(held[i := held[i] + [x]]) == Flat(held) + [x]
  {
    if i == 0 {
      FlatEmpty(held[1..]);
      assert held[0 := held[0] + [x]][1..] == held[1..];
      assert held[0] + [x] + [] == held[0] + [] + [x];
    } else {
      assert held[i := held[i] + [x]][1..] == held[1..][i - 1 := held[1..][i - 1] + [x]];
      FlatPushed(held[1..], i - 1, x);
      Associate(held[0], Flat(held[1..]), [x]);
    }
  }

  lemma FlatPopped<T>(held: seq<seq<T>>)
    requires held != [] && held[0] != []
    ensures Flat(held) == [held[0][0]] + Flat(held[0 := held[0][1..]])
  {
    assert held[0 := held[0][1..]][1..] == held[1..];
    assert held[0] == [held[0][0]] + held[0][1..];
    Associate([held[0][0]], held[0][1..], Flat(held[1..]));
  }

  lemma FlatRotated<T>(held: seq<seq<T>>)
    requires held != [] && held[0] == []
    ensures Flat(held[1..] + [held[0]]) == Flat(held)
  {
    FlatAppend(held[1..], [held[0]]);
    assert [held[0]][1..] == [];
    assert Flat([held[0]]) == [];
  }

  /** Full blocks hold at least so much. */
  lemma {:induction false} FlatAtLeast<T>(held: seq<seq<T>>, each: nat)
    requires forall i :: 0 <= i < |held| ==> |held[i]| >= each
    ensures |Flat(held)| >= |held| * each
  {
    if held != [] {
      FlatAtLeast(held[1..], each);
      assert |held| * each == each + |held[1..]| * each;
    }
  }

  /** What the constructor sets up so that maxSize elements fit: enough slots in all blocks but one, or, as long as
      there is a single block, in that one. */
  ghost predicate Promise(maxSize: nat, blocks: nat, least: nat) {
    2 <= least && (if blocks == 1 then least - 1 >= maxSize else blocks > 1 && (blocks - 1) * (least - 1) >= maxSize)
  }

  lemma PromiseKept(maxSize: nat, blocks: nat, least: nat)
    requires Promise(maxSize, blocks, least)
    ensures Promise(maxSize, blocks + 1, least)
  {
    if blocks > 1 { assert blocks * (least - 1) == (blocks - 1) * (least - 1) + (least - 1); }
  }

  /** When no block behind the tail is left, all blocks but the front one are full, and a single block is: at
      least maxSize elements are stored. */
  lemma FullMeansPromised<T>(
    blocks: seq<Block<T>>, ring: seq<nat>, held: seq<seq<T>>, p: nat, least: nat, maxSize: nat)
    requires RingOk(blocks, ring, held, p, least) && p + 1 == |ring| && Promise(maxSize, |ring|, least)
    requires ring[p] < |blocks| && |held[p]| == blocks[ring[p]].size - 1
    ensures |Flat(held)| >= maxSize
  {
    forall i | 0 < i < |held| || i == p ensures |held[i]| >= least - 1 {
      assert SpotOk(blocks, ring, held, least, i);
    }
    if |ring| == 1 {
      FlatAtLeast(held, least - 1);
      assert 1 * (least - 1) == least - 1;
    } else {
      forall i | 0 <= i < |held[1..]| ensures |held[1..][i]| >= least - 1 { assert held[1..][i] == held[i + 1]; }
      FlatAtLeast(held[1..], least - 1);
    }
  }

  /** initialBlockCount: ceil(maxSize / (MAX_BLOCK_SIZE - 1)), and one more. */
  function InitialBlockCount(maxSize: nat, maxBlock: nat): nat
    requires maxBlock >= 2
  {
    (maxSize + maxBlock * 2 - 3) / (maxBlock - 1)
  }

  lemma EnoughBlocks(maxSize: nat, maxBlock: nat)
    requires maxBlock >= 2 && maxSize > 0
    ensures InitialBlockCount(maxSize, maxBlock) >= 2
    ensures (InitialBlockCount(maxSize, maxBlock) - 1) * (maxBlock - 1) >= maxSize
  {
    var d := maxBlock - 1;
    var q, r := (maxSize + 2 * d - 1) / d, (maxSize + 2 * d - 1) % d;
    assert maxSize + 2 * d - 1 == q * d + r;
    assert (q - 1) * d == q * d - d;
    AtMostOnce(q, d);
  }

  lemma AtMostOnce(q: nat, d: nat)
    ensures q <= 1 ==> q * d <= d
  {}

  lemma CeilAtLeast(x: nat)
    requires 1 <= x <= HALF64
    ensures CeilToPow2(x) >= x
  {
    var e := CeilIsLeast(x);
  }

  /** The size of the first blocks and how many of them there are. */
  method InitialBlocks(maxSize: nat, maxBlock: nat) returns (size: nat, n: nat)
    requires 0 < maxSize < HALF64 && 2 <= maxBlock
    ensures n > 0 && Promise(maxSize, n, size)
  {
    size := CeilToPow2(maxSize + 1);
    CeilAtLeast(maxSize + 1);
    n := 1;
    if size > 2 * maxBlock {
      n := InitialBlockCount(maxSize, maxBlock);
      size := maxBlock;
      EnoughBlocks(maxSize, maxBlock);
    }
  }

  /** Makes n blocks and links them in a circle. */
  method MakeRing<T>(size: nat, n: nat) returns (made: seq<Block<T>>)
    requires n > 0
    ensures |made| == n
    ensures forall i :: 0 <= i < n ==> made[i] == MakeBlock(size, if i + 1 < n then i + 1 else 0)
  {
    made := [MakeBlock(size, 0)];
    while |made| < n
      invariant 1 <= |made| <= n
      invariant forall i :: 0 <= i < |made| ==> made[i] == MakeBlock(size, if i + 1 < |made| then i + 1 else 0)
    {
      made := made[|made| - 1 := made[|made| - 1].(next := |made|)] + [MakeBlock(size, 0)];
    }
  }

  class ReaderWriterQueue<T> {
    const maxSize: nat
    const maxBlock: nat
    var blocks: seq<Block<T>>
    var frontBlock: nat
    var tailBlock: nat
    var largestBlockSize: nat
    /** The blocks in the order of their links from the front block on, what each holds, where in this order the
        tail block is, and the size of the smallest block. */
    ghost var ring: seq<nat>
    ghost var held: seq<seq<T>>
    ghost var p: nat
    ghost var least: nat

    ghost predicate Valid()
      reads this
    {
      && RingOk(blocks, ring, held, p, least) && Promise(maxSize, |ring|, least)
      && ring[0] == frontBlock && ring[p] == tailBlock && least <= largestBlockSize && 2 <= maxBlock
    }

    ghost function Contents(): seq<T>
      reads this
    {
      Flat(held)
    }

    constructor (maxSize: nat, maxBlock: nat)
      requires 0 < maxSize < HALF64 && 2 <= maxBlock
      ensures Valid() && Contents() == [] && this.maxSize == maxSize
    {
      this.maxSize, this.maxBlock := maxSize, maxBlock;
      var size, n := InitialBlocks(maxSize, maxBlock);
      var made := MakeRing<T>(size, n);
      blocks, frontBlock, tailBlock, largestBlockSize := made, 0, 0, size;
      ring, held, p, least := seq(|made|, i => i), seq(|made|, _ => []), 0, size;
      new;
      FlatEmpty(held);
      FreshRing(blocks, ring, held, least);
    }

    /** Puts x in the tail block. */
    method PushHere(x: T)
      requires Valid() && tailBlock < |blocks| && NextSlot(blocks[tailBlock].tail, blocks[tailBlock].size)
          != blocks[tailBlock].localFront
      modifies this`blocks, this`held
      ensures Valid() && Contents() == old(Contents()) + [x]
    {
      assert SpotOk(blocks, ring, held, least, p);
      HoldsPushed(blocks[tailBlock], held[p], x);
      FlatPushed(held, p, x);
      ReplaceSpot(blocks, ring, held, p, least, p, Pushed(blocks[tailBlock], x), held[p] + [x]);
      blocks := blocks[tailBlock := Pushed(blocks[tailBlock], x)];
      held := held[p := held[p] + [x]];
    }

    /** Refreshes the tail block's shadow of its front. */
    method RefreshFront()
      requires Valid() && tailBlock < |blocks|
      modifies this`blocks
      ensures Valid() && tailBlock < |blocks| && blocks[tailBlock].localFront == blocks[tailBlock].front
      ensures |blocks| == old(|blocks|) && blocks[tailBlock].next == old(blocks[tailBlock].next)
      ensures blocks[tailBlock].tail == old(blocks[tailBlock].tail)
      ensures blocks[tailBlock].size == old(blocks[tailBlock].size)
    {
      assert SpotOk(blocks, ring, held, least, p);
      var b := blocks[tailBlock].(localFront := blocks[tailBlock].front);
      HoldsRefreshed(blocks[tailBlock], held[p]);
      ReplaceSpot(blocks, ring, held, p, least, p, b, held[p]);
      assert held[p := held[p]] == held;
      blocks := blocks[tailBlock := b];
    }

    /** Puts x in the block behind the tail, which is empty, and makes it the tail. */
    method PushNext(x: T)
      requires Valid() && p + 1 < |ring| && tailBlock < |blocks| && |held[p]| == blocks[tailBlock].size - 1
      modifies this`blocks, this`held, this`tailBlock, this`p
      ensures Valid() && Contents() == old(Contents()) + [x]
    {
      assert SpotOk(blocks, ring, held, least, p) && SpotOk(blocks, ring, held, least, p + 1);
      var next := blocks[tailBlock].next;
      assert next == ring[p + 1] && blocks[next].front == blocks[next].tail;
      var b := blocks[next].(localFront := blocks[next].front);
      EmptyPushed(blocks[next], x);
      TailOn(blocks, ring, held, p, least, Pushed(b, x), x);
      FlatPushed(held, p + 1, x);
      assert held[p + 1] + [x] == [x];
      blocks := blocks[next := Pushed(b, x)];
      held, p := held[p + 1 := [x]], p + 1;
      tailBlock := next;
    }

    /** Puts x in a new block, which is linked in behind the tail and made the tail. */
    method PushNew(x: T)
      requires Valid() && p + 1 == |ring| && tailBlock < |blocks| && |held[p]| == blocks[tailBlock].size - 1
      modifies this`blocks, this`held, this`tailBlock, this`p, this`ring, this`largestBlockSize
      ensures Valid() && Contents() == old(Contents()) + [x]
    {
      assert SpotOk(blocks, ring, held, least, p);
      var newBlockSize := if largestBlockSize >= maxBlock then largestBlockSize else largestBlockSize * 2;
      var id := |blocks|;
      var b := Pushed(MakeBlock(newBlockSize, blocks[tailBlock].next), x).(localTail := 1);
      NewBlockHolds(newBlockSize, blocks[tailBlock].next, x);
      ghost var blocks' := blocks[tailBlock := blocks[tailBlock].(next := id)] + [b];
      RingExtended(blocks, blocks', ring, held, p, least, x);
      PromiseKept(maxSize, |ring|, least);
      FlatAppend(held, [[x]]);
      assert [[x]][1..] == [] && Flat([[x]]) == [x];
      blocks := blocks[tailBlock := blocks[tailBlock].(next := id)] + [b];
      ring, held, p := ring + [id], held + [[x]], p + 1;
      largestBlockSize, tailBlock := newBlockSize, id;
    }

    /** inner_enqueue: it fails only if a new block is needed and not allowed or not to be had, and a new block is
        needed only if at least maxSize elements are stored. */
    method InnerEnqueue(x: T, canAlloc: bool, allocOk: bool) returns (ok: bool)
      requires Valid()
      modifies this`blocks, this`held, this`tailBlock, this`p, this`ring, this`largestBlockSize
      ensures Valid() && Contents() == if ok then old(Contents()) + [x] else old(Contents())
      ensures canAlloc && allocOk ==> ok
      ensures !ok ==> |Contents()| >= maxSize
    {
      assert SpotOk(blocks, ring, held, least, p);
      if NextSlot(blocks[tailBlock].tail, blocks[tailBlock].size) == blocks[tailBlock].localFront {
        RefreshFront();
        if NextSlot(blocks[tailBlock].tail, blocks[tailBlock].size) == blocks[tailBlock].localFront {
          ok := EnqueueBehind(x, canAlloc, allocOk);
          return;
        }
      }
      PushHere(x);
      return true;
    }

    method EnqueueBehind(x: T, canAlloc: bool, allocOk: bool) returns (ok: bool)
      requires Valid() && tailBlock < |blocks|
      requires NextSlot(blocks[tailBlock].tail, blocks[tailBlock].size) == blocks[tailBlock].front
      modifies this`blocks, this`held, this`tailBlock, this`p, this`ring, this`largestBlockSize
      ensures Valid() && Contents() == if ok then old(Contents()) + [x] else old(Contents())
      ensures canAlloc && allocOk ==> ok
      ensures !ok ==> |Contents()| >= maxSize
    {
      assert SpotOk(blocks, ring, held, least, p);
      NoRoomMeansFull(blocks[tailBlock], held[p]);
      if blocks[tailBlock].next != frontBlock {
        PushNext(x);
        return true;
      } else if canAlloc {
        if !allocOk {
          FullMeansPromised(blocks, ring, held, p, least, maxSize);
          return false;
        }
        PushNew(x);
        return true;
      } else {
        FullMeansPromised(blocks, ring, held, p, least, maxSize);
        return false;
      }
    }

    /** Takes the first element of the front block. */
    method PopHere() returns (x: T)
      requires Valid() && frontBlock < |blocks| && held[0] != []
      requires blocks[frontBlock].localTail != blocks[frontBlock].front
      modifies this`blocks, this`held
      ensures Valid() && old(Contents()) == [x] + Contents()
    {
      assert SpotOk(blocks, ring, held, least, 0);
      HoldsPopped(blocks[frontBlock], held[0]);
      x := blocks[frontBlock].data[blocks[frontBlock].front].value;
      ReplaceSpot(blocks, ring, held, p, least, 0, Popped(blocks[frontBlock]), held[0][1..]);
      FlatPopped(held);
      blocks := blocks[frontBlock := Popped(blocks[frontBlock])];
      held := held[0 := held[0][1..]];
    }

    /** Refreshes the front block's shadow of its tail. */
    method RefreshTail()
      requires Valid() && frontBlock < |blocks|
      modifies this`blocks
      ensures Valid() && frontBlock < |blocks| && blocks[frontBlock].localTail == blocks[frontBlock].tail
      ensures |blocks| == old(|blocks|) && blocks[frontBlock].next == old(blocks[frontBlock].next)
      ensures blocks[frontBlock].front == old(blocks[frontBlock].front)
      ensures blocks[frontBlock].tail == old(blocks[frontBlock].tail)
    {
      assert SpotOk(blocks, ring, held, least, 0);
      var b := blocks[frontBlock].(localTail := blocks[frontBlock].tail);
      HoldsRefreshed(blocks[frontBlock], held[0]);
      ReplaceSpot(blocks, ring, held, p, least, 0, b, held[0]);
      assert held[0 := held[0]] == held;
      blocks := blocks[frontBlock := b];
    }

    /** Leaves the empty front block for the next one, which holds an element: the assertion of the source. */
    method Advance()
      requires Valid() && p > 0 && held[0] == [] && frontBlock < |blocks|
      modifies this`frontBlock, this`ring, this`held, this`p
      ensures Valid() && Contents() == old(Contents()) && frontBlock < |blocks| && held[0] != []
      ensures blocks[frontBlock].front != blocks[frontBlock].tail && frontBlock == old(blocks[frontBlock].next)
    {
      assert SpotOk(blocks, ring, held, least, 0) && SpotOk(blocks, ring, held, least, 1);
      FrontOn(blocks, ring, held, p, least);
      FlatRotated(held);
      frontBlock := blocks[frontBlock].next;
      assert p > 1 ==> |held[1]| == blocks[ring[1]].size - 1;
      ring, held, p := ring[1..] + [ring[0]], held[1..] + [held[0]], p - 1;
    }

    /** try_dequeue takes the oldest element, and finds none only if there is none. */
    method TryDequeue() returns (r: Option<T>)
      requires Valid()
      modifies this`blocks, this`held, this`frontBlock, this`ring, this`p
      ensures Valid()
      ensures r.Some? ==> old(Contents()) == [r.value] + Contents()
      ensures r == None ==> old(Contents()) == [] == Contents()
    {
      var x: T;
      assert SpotOk(blocks, ring, held, least, 0);
      if blocks[frontBlock].front == blocks[frontBlock].localTail {
        RefreshTail();
      }
      assert SpotOk(blocks, ring, held, least, 0);
      if blocks[frontBlock].front != blocks[frontBlock].localTail {
        x := PopHere();
        return Some(x);
      } else if frontBlock != tailBlock {
        Advance();
        RefreshTail();
        x := PopHere();
        return Some(x);
      } else {
        FlatEmpty(held);
        return None;
      }
    }

    /** pop is try_dequeue without the element. */
    method Pop() returns (ok: bool)
      requires Valid()
      modifies this`blocks, this`held, this`frontBlock, this`ring, this`p
      ensures Valid()
      ensures ok ==> old(Contents()) != [] && Contents() == old(Contents())[1..]
      ensures !ok ==> old(Contents()) == [] == Contents()
    {
      var r := TryDequeue();
      ok := r.Some?;
    }

    /** try_enqueue */
    method TryEnqueue(x: T) returns (ok: bool)
      requires Valid()
      modifies this`blocks, this`held, this`tailBlock, this`p, this`ring, this`largestBlockSize
      ensures Valid() && Contents() == if ok then old(Contents()) + [x] else old(Contents())
      ensures |old(Contents())| < maxSize ==> ok
    {
      ok := InnerEnqueue(x, false, false);
    }

    /** enqueue */
    method Enqueue(x: T, allocOk: bool) returns (ok: bool)
      requires Valid()
      modifies this`blocks, this`held, this`tailBlock, this`p, this`ring, this`largestBlockSize
      ensures Valid() && Contents() == if ok then old(Contents()) + [x] else old(Contents())
      ensures allocOk || |old(Contents())| < maxSize ==> ok
    {
      ok := InnerEnqueue(x, true, allocOk);
    }
  }

  lemma EmptyPushed<T>(b: Block<T>, x: T)
    requires Holds(b, [])
    ensures Holds(Pushed(b.(localFront := b.front), x), [x])
  {
    HoldsPushed(b.(localFront := b.front), [], x);
  }

  lemma NewBlockHolds<T>(size: nat, next: nat, x: T)
    requires 2 <= size
    ensures Holds(Pushed(MakeBlock(size, next), x).(localTail := 1), [x])
  {}

  lemma FreshRing<T>(blocks: seq<Block<T>>, ring: seq<nat>, held: seq<seq<T>>, size: nat)
    requires 0 < |blocks| == |ring| == |held| && 2 <= size
    requires forall i :: 0 <= i < |blocks| ==>
      blocks[i] == MakeBlock(size, if i + 1 < |blocks| then i + 1 else 0) && ring[i] == i && held[i] == []
    ensures RingOk(blocks, ring, held, 0, size)
  {
    forall j {:trigger SpotOk(blocks, ring, held, size, j)} | 0 <= j < |ring|
      ensures SpotOk(blocks, ring, held, size, j)
    {}
  }
}
