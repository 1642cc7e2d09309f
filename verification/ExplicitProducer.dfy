/** The explicit producer of concurrentqueue.h: a ring of blocks of 32 slots, found through the circular block index.
    One thread enqueues; any number of consumers claim indices and then, step by step, load the index, load its front,
    and take their element. Here an enqueue is one step for the consumers; what they may meet in the middle of one is
    in ExplicitRace. */
module ExplicitProducer {
  import opened Prelude
  import opened CircularIndex
  import opened ExplicitIndex
  import D = DequeueCounters

  /** `flags` are the empty flags, stored in reverse; `data` holds None in slots that hold no element. */
  datatype Block<+T> = Block(next: nat, flags: seq<bool>, data: seq<Option<T>>)

  function IsEmpty<T>(b: Block<T>): bool { forall i :: 0 <= i < |b.flags| ==> b.flags[i] }

  // ----- The representation. homes[n] is the block that element numbers 32 n .. 32 n + 31 were put in; the
  // ----- last `used` of them form the ring.

  function Newest(homes: seq<nat>): Option<nat> {
    if homes == [] then None else Some(homes[|homes| - 1])
  }

  ghost predicate Linked<T>(blocks: seq<Block<T>>, homes: seq<nat>, used: nat, n: nat) {
    && used <= |homes| && |homes| - used <= n < |homes| && homes[n] < |blocks|
    && blocks[homes[n]].next == (if n + 1 < |homes| then homes[n + 1] else homes[|homes| - used])
  }

  ghost predicate RingOk<T>(blocks: seq<Block<T>>, homes: seq<nat>, used: nat) {
    && used <= |homes| && (used == 0 ==> homes == [])
    && (forall n {:trigger Linked(blocks, homes, used, n)} ::
          |homes| - used <= n < |homes| ==> Linked(blocks, homes, used, n))
    && (forall n, m :: |homes| - used <= n < m < |homes| ==> homes[n] != homes[m])
  }

  /** Slot i of block number n: the element is there until its flag says it was dequeued. */
  ghost predicate SlotOk<T>(b: Block<T>, elems: seq<T>, done: set<nat>, n: nat, i: nat) {
    && |b.flags| == 32 && |b.data| == 32 && i < 32
    && (if 32 * n + i < |elems|
        then b.flags[31 - i] == (32 * n + i in done) && (32 * n + i !in done ==> b.data[i] == Some(elems[32 * n + i]))
        else !b.flags[31 - i])
  }

  ghost predicate BlockOk<T>(blocks: seq<Block<T>>, homes: seq<nat>, elems: seq<T>, done: set<nat>, n: nat) {
    && n < |homes| && homes[n] < |blocks|
    && forall i {:trigger SlotOk(blocks[homes[n]], elems, done, n, i)} :: 0 <= i < 32 ==>
         SlotOk(blocks[homes[n]], elems, done, n, i)
  }

  ghost predicate BlocksOk<T>(blocks: seq<Block<T>>, homes: seq<nat>, used: nat, elems: seq<T>, done: set<nat>) {
    forall n {:trigger BlockOk(blocks, homes, elems, done, n)} :: 0 <= |homes| - used <= n < |homes| ==>
      BlockOk(blocks, homes, elems, done, n)
  }

  // ----- Ring steps -----

  lemma RotateRing<T>(blocks: seq<Block<T>>, blocks': seq<Block<T>>, homes: seq<nat>, used: nat)
    requires RingOk(blocks, homes, used) && used > 0
    requires |blocks'| == |blocks| && forall b :: 0 <= b < |blocks| ==> blocks'[b].next == blocks[b].next
    ensures RingOk(blocks', homes + [homes[|homes| - used]], used)
  {
    var lo := |homes| - used;
    var homes' := homes + [homes[lo]];
    assert Linked(blocks, homes, used, |homes| - 1);
    forall n | lo + 1 <= n < |homes'| ensures Linked(blocks', homes', used, n) {
      if n < |homes| { assert Linked(blocks, homes, used, n); } else { assert Linked(blocks, homes, used, lo); }
    }
  }

  lemma ExtendRing<T>(blocks: seq<Block<T>>, blocks': seq<Block<T>>, homes: seq<nat>, used: nat)
    requires RingOk(blocks, homes, used)
    requires |blocks'| == |blocks| + 1
    requires used == 0 ==> blocks'[|blocks|].next == |blocks|
    requires used > 0 ==>
      && homes[|homes| - 1] < |blocks| && blocks'[|blocks|].next == blocks[homes[|homes| - 1]].next
      && blocks'[homes[|homes| - 1]].next == |blocks|
      && forall b :: 0 <= b < |blocks| && b != homes[|homes| - 1] ==> blocks'[b].next == blocks[b].next
    ensures RingOk(blocks', homes + [|blocks|], used + 1)
  {
    var homes' := homes + [|blocks|];
    if used > 0 { assert Linked(blocks, homes, used, |homes| - 1); }
    forall n {:trigger Linked(blocks', homes', used + 1, n)} | |homes| - used <= n < |homes'|
      ensures Linked(blocks', homes', used + 1, n)
    {
      if n < |homes| { assert Linked(blocks, homes, used, n); }
    }
    forall n, m | |homes| - used <= n < m < |homes'| ensures homes'[n] != homes'[m] {
      assert Linked(blocks, homes, used, n);
    }
  }

  /** Starting block number |homes| leaves the slots of the other blocks of the ring alone. */
  lemma StartBlockSlots<T>(
    blocks: seq<Block<T>>, blocks': seq<Block<T>>, homes: seq<nat>, b: nat, used: nat, elems: seq<T>, done: set<nat>)
    requires 0 < used <= |homes| + 1
    requires b < |blocks'| && |blocks| <= |blocks'| && |elems| == 32 * |homes|
    requires |blocks'[b].data| == 32 && blocks'[b].flags == seq(32, _ => false)
    requires forall n :: |homes| + 1 - used <= n < |homes| ==> SameSlots(blocks, blocks', homes, n) && homes[n] != b
    requires forall n :: |homes| + 1 - used <= n < |homes| ==> BlockOk(blocks, homes, elems, done, n)
    ensures BlocksOk(blocks', homes + [b], used, elems, done)
  {
    var homes' := homes + [b];
    forall n | |homes'| - used <= n < |homes'| ensures BlockOk(blocks', homes', elems, done, n) {
      if n < |homes| {
        assert SameSlots(blocks, blocks', homes, n) && BlockOk(blocks, homes, elems, done, n);
        forall i | 0 <= i < 32 ensures SlotOk(blocks'[homes'[n]], elems, done, n, i) {
          assert SlotOk(blocks[homes[n]], elems, done, n, i);
        }
      } else {
        forall i | 0 <= i < 32 ensures SlotOk(blocks'[homes'[n]], elems, done, n, i) {}
      }
    }
  }

  lemma ReuseSlots<T>(
    blocks: seq<Block<T>>, blocks': seq<Block<T>>, homes: seq<nat>, used: nat, elems: seq<T>, done: set<nat>)
    requires RingOk(blocks, homes, used) && BlocksOk(blocks, homes, used, elems, done) && used > 0
    requires |elems| == 32 * |homes| && homes[|homes| - used] < |blocks| && |blocks[homes[|homes| - used]].data| == 32
    requires var b := homes[|homes| - used]; blocks' == blocks[b := blocks[b].(flags := seq(32, _ => false))]
    ensures BlocksOk(blocks', homes + [homes[|homes| - used]], used, elems, done)
  {
    forall n | |homes| + 1 - used <= n < |homes|
      ensures SameSlots(blocks, blocks', homes, n) && homes[n] != homes[|homes| - used]
      ensures BlockOk(blocks, homes, elems, done, n)
    {
      assert BlockOk(blocks, homes, elems, done, n);
    }
    StartBlockSlots(blocks, blocks', homes, homes[|homes| - used], used, elems, done);
  }

  lemma InsertSlots<T>(
    blocks: seq<Block<T>>, blocks': seq<Block<T>>, homes: seq<nat>, used: nat, elems: seq<T>, done: set<nat>)
    requires RingOk(blocks, homes, used) && BlocksOk(blocks, homes, used, elems, done) && |elems| == 32 * |homes|
    requires |blocks'| == |blocks| + 1 && |blocks'[|blocks|].data| == 32
    requires blocks'[|blocks|].flags == seq(32, _ => false)
    requires forall b :: 0 <= b < |blocks| ==> blocks'[b].flags == blocks[b].flags && blocks'[b].data == blocks[b].data
    ensures BlocksOk(blocks', homes + [|blocks|], used + 1, elems, done)
  {
    forall n | |homes| - used <= n < |homes|
      ensures SameSlots(blocks, blocks', homes, n) && homes[n] != |blocks|
      ensures BlockOk(blocks, homes, elems, done, n)
    {
      assert BlockOk(blocks, homes, elems, done, n);
    }
    StartBlockSlots(blocks, blocks', homes, |blocks|, used + 1, elems, done);
  }

  ghost predicate SameSlots<T>(blocks: seq<Block<T>>, blocks': seq<Block<T>>, homes: seq<nat>, n: nat) {
    && n < |homes| && homes[n] < |blocks| <= |blocks'|
    && blocks'[homes[n]].flags == blocks[homes[n]].flags && blocks'[homes[n]].data == blocks[homes[n]].data
  }

  // ----- Element steps -----

  /** Only the last block of the ring has room, and only its slot for the next element changes. */
  lemma StoreSlots<T>(
    blocks: seq<Block<T>>, blocks': seq<Block<T>>, homes: seq<nat>, used: nat, elems: seq<T>, done: set<nat>, x: T)
    requires RingOk(blocks, homes, used) && BlocksOk(blocks, homes, used, elems, done) && used > 0
    requires 32 * |homes| - 32 <= |elems| < 32 * |homes| && |elems| !in done
    requires homes[|homes| - 1] < |blocks| && |blocks[homes[|homes| - 1]].data| == 32
    requires var b := homes[|homes| - 1];
      blocks' == blocks[b := blocks[b].(data := blocks[b].data[|elems| % 32 := Some(x)])]
    ensures BlocksOk(blocks', homes, used, elems + [x], done)
  {
    var last := |homes| - 1;
    forall n | |homes| - used <= n < |homes| ensures BlockOk(blocks', homes, elems + [x], done, n) {
      assert BlockOk(blocks, homes, elems, done, n);
      assert n != last ==> homes[n] != homes[last];
      forall i | 0 <= i < 32 ensures SlotOk(blocks'[homes[n]], elems + [x], done, n, i) {
        assert SlotOk(blocks[homes[n]], elems, done, n, i);
      }
    }
  }

  lemma SameRing<T>(blocks: seq<Block<T>>, blocks': seq<Block<T>>, homes: seq<nat>, used: nat)
    requires RingOk(blocks, homes, used) && |blocks'| == |blocks|
    requires forall b :: 0 <= b < |blocks| ==> blocks'[b].next == blocks[b].next
    ensures RingOk(blocks', homes, used)
  {
    forall n | |homes| - used <= n < |homes| ensures Linked(blocks', homes, used, n) {
      assert Linked(blocks, homes, used, n);
    }
  }

  /** Moving element x out and setting its flag. */
  lemma TakeSlots<T>(
    blocks: seq<Block<T>>, blocks': seq<Block<T>>, homes: seq<nat>, used: nat, elems: seq<T>, done: set<nat>, x: nat)
    requires RingOk(blocks, homes, used) && BlocksOk(blocks, homes, used, elems, done)
    requires x < |elems| && |homes| - used <= x / 32 < |homes|
    requires var b := homes[x / 32];
      && b < |blocks| && |blocks[b].data| == 32 == |blocks[b].flags|
      && blocks' == blocks[b := blocks[b].(data := blocks[b].data[x % 32 := None],
                                           flags := blocks[b].flags[31 - x % 32 := true])]
    ensures BlocksOk(blocks', homes, used, elems, done + {x})
  {
    forall n | |homes| - used <= n < |homes| ensures BlockOk(blocks', homes, elems, done + {x}, n) {
      assert BlockOk(blocks, homes, elems, done, n);
      assert n != x / 32 ==> homes[n] != homes[x / 32];
      forall i | 0 <= i < 32 ensures SlotOk(blocks'[homes[n]], elems, done + {x}, n, i) {
        assert SlotOk(blocks[homes[n]], elems, done, n, i);
      }
    }
  }

  /** A block reads as empty exactly when all of its 32 elements have been dequeued. */
  lemma EmptyMeansDrained<T>(blocks: seq<Block<T>>, homes: seq<nat>, elems: seq<T>, done: set<nat>, n: nat)
    requires BlockOk(blocks, homes, elems, done, n) && forall x :: x in done ==> x < |elems|
    ensures IsEmpty(blocks[homes[n]]) <==> DrainedBlock(done, n)
  {
    var b := blocks[homes[n]];
    assert SlotOk(b, elems, done, n, 0);
    if IsEmpty(b) {
      forall x | 32 * n <= x < 32 * n + 32 ensures x in done {
        assert SlotOk(b, elems, done, n, x - 32 * n) && b.flags[31 - (x - 32 * n)];
      }
    } else {
      var i :| 0 <= i < 32 && !b.flags[i];
      assert SlotOk(b, elems, done, n, 31 - i);
      assert 32 * n + (31 - i) !in done;
    }
  }

  // ----- The invariant of the producer -----

  ghost predicate CountersOk(tailIndex: nat, headIndex: nat, tail: nat, head: nat, done: set<nat>, oldest: nat) {
    && tailIndex == D.Wrap(tail) && headIndex == D.Wrap(head) && head <= tail
    && (forall x :: x in done ==> x < head) && (forall x :: 0 <= x < oldest ==> x in done)
  }

  class ExplicitProducer<T> {
    /** MAX_SUBQUEUE_SIZE, a multiple of 32, if there is one. */
    const limit: Option<nat>
    var blocks: seq<Block<T>>
    var tailBlock: Option<nat>
    /** Every index ever built; the last one is the current blockIndex, the others are kept for late readers. */
    var headers: seq<Header>
    var size: nat
    var front: nat
    var used: nat
    var tailIndex: nat
    var headIndex: nat
    /** Everything ever enqueued; the elements from `head` on have not been claimed, those in `done` were taken. */
    ghost var elems: seq<T>
    ghost var head: nat
    ghost var done: set<nat>
    ghost var homes: seq<nat>
    ghost var marks: seq<Mark>
    ghost var order: nat
    ghost var readers: map<nat, Reader>

    /** The ring of blocks and the elements in it. */
    ghost predicate RingPart()
      reads this`blocks, this`tailBlock, this`used, this`elems, this`done, this`homes
    {
      && RingOk(blocks, homes, used) && BlocksOk(blocks, homes, used, elems, done)
      && tailBlock == Newest(homes) && |elems| <= 32 * |homes|
    }

    /** The block index and the consumers that are reading it. */
    ghost predicate IndexPart()
      reads this`headers, this`size, this`front, this`used, this`head, this`done, this`homes, this`marks, this`order,
        this`readers
    {
      && used <= |homes| && (used == 0 ==> homes == []) && IndexesOk(headers, marks, homes, used, size, order, front)
      && ReadersOk(readers, headers, marks, homes, head, done)
    }

    ghost predicate CounterPart()
      reads this`tailIndex, this`headIndex, this`elems, this`head, this`done, this`homes, this`used
    {
      used <= |homes| && CountersOk(tailIndex, headIndex, |elems|, head, done, 32 * (|homes| - used))
    }

    /** The invariant while a block may have been started that holds no element yet. */
    ghost predicate Started()
      reads this
    {
      RingPart() && IndexPart() && CounterPart()
    }

    ghost predicate Valid()
      reads this
    {
      Started() && 32 * |homes| < |elems| + 32
    }

    /** The elements that have not been claimed by a consumer. */
    ghost function Contents(): seq<T>
      reads this
      requires head <= |elems|
    {
      elems[head..]
    }

    /** pr_blockIndexSize is `half` before the constructor builds the first index with twice that size. */
    constructor (half: nat, ghost order: nat, limit: Option<nat>, ok: bool, memory: seq<Entry>)
      requires half == Pow2(order) && order < 58 && |memory| == 2 * half
      ensures Valid() && elems == [] && head == 0 && done == {} && readers == map[]
      ensures ok <==> headers != []
    {
      this.limit := limit;
      blocks, tailBlock, headers, size, front, used, tailIndex, headIndex := [], None, [], half, 0, 0, 0, 0;
      elems, head, done, homes, marks, this.order, readers := [], 0, {}, [], [], order, map[];
      new;
      if ok {
        OrderBelow(order);
        var built := NewBlockIndex(0, true, memory);
      }
    }

    /** Doubles the index; `memory` is what the freshly allocated entries happen to hold. */
    method NewBlockIndex(exposed: nat, ok: bool, memory: seq<Entry>) returns (built: bool)
      requires IndexPart() && exposed == used && (headers == [] || used == size)
      requires ok ==> 2 * size <= MAX_ENTRIES && |memory| == 2 * size
      modifies this`headers, this`size, this`front, this`marks, this`order
      ensures IndexPart() && built == ok
      ensures if ok then size == 2 * old(size) && |headers| == |old(headers)| + 1 else unchanged(this)
    {
      if !ok { return false; }
      OrderBelow(order);
      var entries := memory;
      if used > 0 {
        entries := CopyRing(headers[|headers| - 1], marks[|headers| - 1], homes, used, front, memory);
      }
      var h := Header(2 * size, D.Wrap(exposed - 1), entries);
      ghost var k := Mark(|homes| - used, order + 1, if homes == [] then 0 else |homes| - 1);
      DoubledIndexes(headers, marks, homes, used, size, order, front, h, k);
      LongerHeaders(readers, headers, marks, homes, head, done, h, k);
      Install(h, k);
      return true;
    }

    method Install(h: Header, ghost k: Mark)
      requires used <= |homes| && (used == 0 ==> homes == [])
      requires IndexesOk(headers + [h], marks + [k], homes, used, h.size, k.order, used)
      requires ReadersOk(readers, headers + [h], marks + [k], homes, head, done)
      modifies this`headers, this`size, this`front, this`marks, this`order
      ensures IndexPart() && headers == old(headers) + [h] && size == h.size
    {
      headers, size, front, marks, order := headers + [h], h.size, used, marks + [k], k.order;
    }

    /** Re-uses the block ahead of the tail. */
    method AdvanceTail()
      requires RingPart() && |elems| == 32 * |homes| && homes != []
      requires BlockOk(blocks, homes, elems, done, |homes| - used) && DrainedBlock(done, |homes| - used)
      modifies this`blocks, this`tailBlock
      ensures tailBlock == Some(homes[|homes| - used])
      ensures RingOk(blocks, homes + [homes[|homes| - used]], used)
      ensures BlocksOk(blocks, homes + [homes[|homes| - used]], used, elems, done)
    {
      assert Linked(blocks, homes, used, |homes| - 1);
      var b := blocks[tailBlock.value].next;
      ghost var was := blocks;
      tailBlock := Some(b);
      blocks := blocks[b := blocks[b].(flags := seq(32, _ => false))];
      assert SlotOk(was[homes[|homes| - used]], elems, done, |homes| - used, 0);
      RotateRing(was, blocks, homes, used);
      ReuseSlots(was, blocks, homes, used, elems, done);
    }

    method Reuse()
      requires Valid() && |elems| == 32 * |homes| && homes != [] && DrainedBlock(done, |homes| - used)
      requires BlockOk(blocks, homes, elems, done, |homes| - used)
      modifies this`blocks, this`tailBlock, this`headers, this`front, this`homes, this`marks
      ensures Started() && |homes| == |old(homes)| + 1
    {
      AdvanceTail();
      Publish(used);
    }

    /** Links a block from the pool in after the tail; `block` is whatever the pool's block held. */
    method InsertBlock(block: Block<T>)
      requires RingPart() && |elems| == 32 * |homes| && |block.data| == 32
      modifies this`blocks, this`tailBlock, this`used
      ensures used == old(used) + 1 && tailBlock == Some(|old(blocks)|)
      ensures RingOk(blocks, homes + [|old(blocks)|], used)
      ensures BlocksOk(blocks, homes + [|old(blocks)|], used, elems, done)
    {
      ghost var was := blocks;
      if homes != [] { assert Linked(blocks, homes, used, |homes| - 1); }
      var b := |blocks|;
      if tailBlock == None {
        blocks := blocks + [block.(flags := seq(32, _ => false), next := b)];
      } else {
        var t := tailBlock.value;
        blocks := blocks[t := blocks[t].(next := b)] + [block.(flags := seq(32, _ => false), next := blocks[t].next)];
      }
      ExtendRing(was, blocks, homes, used);
      InsertSlots(was, blocks, homes, used, elems, done);
      tailBlock, used := Some(b), used + 1;
    }

    /** Puts the tail block on the index and publishes it. */
    method Publish(ghost before: nat)
      requires tailBlock.Some? && headers != [] && |elems| == 32 * |homes| && 0 < used <= |homes| + 1 && used <= size
      requires RingOk(blocks, homes + [tailBlock.value], used)
      requires BlocksOk(blocks, homes + [tailBlock.value], used, elems, done)
      requires IndexesOk(headers, marks, homes, before, size, order, front) && before <= used <= before + 1
      requires ReadersOk(readers, headers, marks, homes, head, done)
      requires CountersOk(tailIndex, headIndex, |elems|, head, done, 32 * (|homes| + 1 - used))
      modifies this`headers, this`front, this`homes, this`marks
      ensures Started() && homes == old(homes) + [tailBlock.value]
    {
      PublishIndexes(headers, marks, homes, before, used, size, order, front, tailBlock.value);
      PublishReaders(readers, headers, marks, homes, before, used, size, order, front, tailBlock.value, head, done);
      BaseIsWrap(|homes|);
      WriteEntry(|headers| - 1, tailBlock.value);
    }

    method WriteEntry(c: nat, b: nat)
      requires headers != [] && c == |headers| - 1 == |marks| - 1 && tailIndex == Base(|homes|)
      requires 0 < used <= |homes| + 1 && front < |headers[c].entries|
      requires IndexesOk(headers[c := Published(headers[c], front, |homes|, b)], marks[c := marks[c].(last := |homes|)],
                         homes + [b], used, size, order, NextSlot(front, size))
      requires ReadersOk(readers, headers[c := Published(headers[c], front, |homes|, b)],
                         marks[c := marks[c].(last := |homes|)], homes + [b], head, done)
      modifies this`headers, this`front, this`homes, this`marks
      ensures IndexPart() && homes == old(homes) + [b]
    {
      var h := headers[c];
      h := h.(entries := h.entries[front := Entry(tailIndex, b)], front := front);
      headers := headers[c := h];
      front := NextSlot(front, size);
      marks, homes := marks[c := marks[c].(last := |homes|)], homes + [b];
    }

    /** Whether another block would let the tail surpass the head, or exceed the size limit, as the source
        decides it on wrapped words. */
    function Full(): bool
      reads this
    {
      || !D.CircularLess(headIndex, D.Wrap(tailIndex + 32))
      || (limit.Some? && (limit.value < 32 || limit.value - 32 < D.Wrap(tailIndex - headIndex)))
    }

    method IsFull() returns (full: bool)
      requires CounterPart() && IndexPart() && |elems| <= 32 * |homes| && (headers == [] ==> used == 0)
      ensures used <= size && (full <==> !Leeway())
    {
      LeewayMeans();
      assert !D.CircularLess(tailIndex, headIndex);
      full := Full();
    }

    /** What Full means for the elements. */
    ghost predicate Leeway()
      reads this
    {
      |elems| - head + 32 < HALF64 && (limit.Some? ==> |elems| - head + 32 <= limit.value)
    }

    /** An enqueue succeeds exactly if the tail block has room, or the oldest block of the ring has been emptied,
        or there is leeway for another block and it and its index entry can be had. */
    ghost predicate HasRoom(index: bool, block: bool)
      reads this
    {
      || |elems| % 32 != 0
      || (0 < used <= |homes| && DrainedBlock(done, |homes| - used))
      || (Leeway() && ((headers != [] && used < size) || index) && block)
    }

    method StartBlock(canAlloc: bool, indexOk: bool, blockOk: bool, memory: seq<Entry>, block: Block<T>)
      returns (ok: bool)
      requires Valid() && |elems| == 32 * |homes| && |block.data| == 32
      requires canAlloc && indexOk ==>
          (headers != [] && used < size) || (2 * size <= MAX_ENTRIES && |memory| == 2 * size)
      modifies this`blocks, this`tailBlock, this`headers, this`size, this`front, this`used, this`homes, this`marks,
        this`order
      ensures Started() && |homes| == |old(homes)| + if ok then 1 else 0
      ensures ok <==> old(HasRoom(canAlloc && indexOk, blockOk))
    {
      var reusable := NextIsEmpty();
      if reusable {
        Reuse();
        ok := true;
      } else {
        ok := AddBlock(canAlloc, indexOk, blockOk, memory, block);
      }
    }

    /** Whether the block ahead of the tail is empty: then it is the oldest one, and drained. */
    method NextIsEmpty() returns (empty: bool)
      requires RingPart() && CounterPart()
      ensures empty <==> 0 < used <= |homes| && DrainedBlock(done, |homes| - used)
      ensures empty ==> homes != [] && BlockOk(blocks, homes, elems, done, |homes| - used)
    {
      if homes != [] { NextIsOldest(); }
      empty := tailBlock.Some? && IsEmpty(blocks[blocks[tailBlock.value].next]);
    }

    method AddBlock(canAlloc: bool, indexOk: bool, blockOk: bool, memory: seq<Entry>, block: Block<T>)
      returns (ok: bool)
      requires Started() && |elems| == 32 * |homes| && |block.data| == 32
      requires canAlloc && indexOk ==>
          (headers != [] && used < size) || (2 * size <= MAX_ENTRIES && |memory| == 2 * size)
      modifies this`blocks, this`tailBlock, this`headers, this`size, this`front, this`used, this`homes, this`marks,
        this`order
      ensures Started() && |homes| == |old(homes)| + if ok then 1 else 0
      ensures ok <==> old(Leeway() && ((headers != [] && used < size) || (canAlloc && indexOk)) && blockOk)
    {
      var full := IsFull();
      if full { return false; }
      if headers == [] || used == size {
        if !canAlloc { return false; }
        var built := NewBlockIndex(used, indexOk, memory);
        if !built { return false; }
      }
      if !blockOk { return false; }
      ghost var before := used;
      InsertBlock(block);
      Publish(before);
      return true;
    }

    lemma LeewayMeans()
      requires CounterPart() && IndexPart() && |elems| <= 32 * |homes| && (headers == [] ==> used == 0)
      ensures Full() <==> !Leeway()
      ensures !D.CircularLess(tailIndex, headIndex)
      ensures used <= size
    {
      SizeBound(order);
      assert 0 < |homes| - used ==> 32 * (|homes| - used) - 1 in done;
      WordsCompare(|elems|, head);
    }

    /** The block after the tail is the oldest of the ring, and it reads as empty when it has been drained. */
    lemma NextIsOldest()
      requires RingPart() && CounterPart() && homes != []
      ensures tailBlock.Some? && tailBlock.value < |blocks| && 0 < used <= |homes|
      ensures blocks[tailBlock.value].next == homes[|homes| - used] < |blocks|
      ensures BlockOk(blocks, homes, elems, done, |homes| - used)
      ensures IsEmpty(blocks[homes[|homes| - used]]) <==> DrainedBlock(done, |homes| - used)
    {
      assert Linked(blocks, homes, used, |homes| - 1);
      assert BlockOk(blocks, homes, elems, done, |homes| - used);
      EmptyMeansDrained(blocks, homes, elems, done, |homes| - used);
    }

    /** Constructs the element in the tail block. */
    method Construct(x: T, i: nat)
      requires RingPart() && |elems| < 32 * |homes| <= |elems| + 32 && |elems| !in done && i == |elems| % 32
      modifies this`blocks, this`elems
      ensures RingPart() && elems == old(elems) + [x]
    {
      assert Linked(blocks, homes, used, |homes| - 1) && BlockOk(blocks, homes, elems, done, |homes| - 1);
      assert SlotOk(blocks[homes[|homes| - 1]], elems, done, |homes| - 1, 0);
      ghost var was := blocks;
      var b := tailBlock.value;
      blocks := blocks[b := blocks[b].(data := blocks[b].data[i := Some(x)])];
      SameRing(was, blocks, homes, used);
      StoreSlots(was, blocks, homes, used, elems, done, x);
      elems := elems + [x];
    }

    method Put(x: T)
      requires Started() && |elems| < 32 * |homes| <= |elems| + 32
      modifies this`blocks, this`tailIndex, this`elems
      ensures Valid() && elems == old(elems) + [x]
    {
      WrapBlock(|elems|);
      WrapAdd(|elems|, 1);
      Construct(x, tailIndex % 32);
      tailIndex := D.Wrap(tailIndex + 1);
    }

    /** Appends one element, or fails and leaves the queue as it was. */
    method Enqueue(
      x: T, canAlloc: bool, indexOk: bool, blockOk: bool, memory: seq<Entry>, block: Block<T>) returns (ok: bool)
      requires Valid() && |block.data| == 32
      requires canAlloc && indexOk ==>
          (headers != [] && used < size) || (2 * size <= MAX_ENTRIES && |memory| == 2 * size)
      modifies this`blocks, this`tailBlock, this`headers, this`size, this`front, this`used, this`homes, this`marks,
        this`order, this`tailIndex, this`elems
      ensures Valid() && elems == if ok then old(elems) + [x] else old(elems)
      ensures ok <==> old(HasRoom(canAlloc && indexOk, blockOk))
    {
      WrapBlock(|elems|);
      if tailIndex % 32 == 0 {
        var started := StartBlock(canAlloc, indexOk, blockOk, memory, block);
        if !started { return false; }
      }
      Put(x);
      return true;
    }

    /** A consumer whose dequeue was granted takes the next index. */
    method Claim() returns (index: nat, ghost x: nat)
      requires Valid() && head < |elems|
      modifies this`headIndex, this`head
      ensures Valid() && x == old(head) && head == x + 1 && index == D.Wrap(x)
      ensures x !in done && x !in readers && Contents() == old(Contents())[1..]
    {
      WrapAdd(head, 1);
      index, x := headIndex, head;
      headIndex, head := D.Wrap(headIndex + 1), head + 1;
    }

    /** It loads blockIndex. */
    method LoadIndex(ghost x: nat) returns (h: nat)
      requires Valid() && x < head && x !in done
      modifies this`readers
      ensures Valid() && readers == old(readers)[x := Loaded(h)]
    {
      BlockNumber(x);
      h := |headers| - 1;
      readers := readers[x := Loaded(h)];
    }

    /** It loads the front of the index it has, which may have been replaced by now. */
    method LoadFront(ghost x: nat, h: nat) returns (slot: nat, ghost last: nat)
      requires Valid() && x in readers && readers[x] == Loaded(h)
      modifies this`readers
      ensures Valid() && readers == old(readers)[x := Fronted(h, slot, last)]
    {
      FrontOk(x, headers, marks, homes, h);
      slot, last := headers[h].front, marks[h].last;
      readers := readers[x := Fronted(h, slot, last)];
    }

    /** The number of a live element's block is in the window of the ring. */
    lemma BlockNumber(x: nat)
      requires Valid() && x < |elems| && x !in done
      ensures |homes| - used <= x / 32 < |homes| && headers != []
    {}

    /** A block of the ring is re-used only when all its elements have been taken: every element that has not
        been taken, claimed or not, is in its own slot of its own block of the ring, not flagged. */
    lemma LiveElementInPlace(x: nat)
      requires Valid() && x < |elems| && x !in done
      ensures |homes| - used <= x / 32 < |homes| && homes[x / 32] < |blocks|
      ensures var b := blocks[homes[x / 32]];
        x % 32 < |b.data| == |b.flags| == 32 && b.data[x % 32] == Some(elems[x]) && !b.flags[31 - x % 32]
    {
      BlockNumber(x);
      assert BlockOk(blocks, homes, elems, done, x / 32);
      assert SlotOk(blocks[homes[x / 32]], elems, done, x / 32, x % 32);
    }

    /** It looks its block up. However long ago it loaded the index, and whatever the producer has done since, it
        finds the block that its element was put in. */
    method Locate(index: nat, ghost x: nat, h: nat, slot: nat, ghost last: nat) returns (b: nat)
      requires Valid() && x in readers && readers[x] == Fronted(h, slot, last) && index == D.Wrap(x)
      ensures |homes| - used <= x / 32 < |homes| && b == homes[x / 32] && x < head
    {
      BlockNumber(x);
      LookupFinds(x, readers[x], headers, marks, homes);
      WrapBlock(x);
      var header := headers[h];
      b := header.entries[SourceSlot(slot, index - index % 32, header.entries[slot].base, header.size)].block;
    }

    /** It moves out the element that was enqueued at its index, and flags the slot. */
    method Take(index: nat, ghost x: nat, h: nat, slot: nat, ghost last: nat) returns (v: T)
      requires Valid() && x in readers && readers[x] == Fronted(h, slot, last) && index == D.Wrap(x)
      modifies this`blocks, this`done, this`readers
      ensures Valid() && v == elems[x] && done == old(done) + {x} && readers == old(readers) - {x}
    {
      var b := Locate(index, x, h, slot, last);
      WrapBlock(x);
      FewerReaders(readers, headers, marks, homes, head, done, x);
      v := MoveOut(b, index % 32, x);
      Retire(x);
    }

    ghost method Retire(x: nat)
      requires used <= |homes| && (used == 0 ==> homes == []) && x < head && 32 * |homes| < |elems| + 32
      requires RingOk(blocks, homes, used) && BlocksOk(blocks, homes, used, elems, done + {x})
      requires tailBlock == Newest(homes) && |elems| <= 32 * |homes|
      requires IndexesOk(headers, marks, homes, used, size, order, front) && CounterPart()
      requires ReadersOk(readers - {x}, headers, marks, homes, head, done + {x})
      modifies this`done, this`readers
      ensures Valid() && done == old(done) + {x} && readers == old(readers) - {x}
    {
      done, readers := done + {x}, readers - {x};
    }

    /** Moves element x out of slot i of its block and sets the slot's flag. */
    method MoveOut(b: nat, i: nat, ghost x: nat) returns (v: T)
      requires RingPart() && x < |elems| && x !in done && |homes| - used <= x / 32 < |homes|
      requires b == homes[x / 32] && i == x % 32
      modifies this`blocks
      ensures RingOk(blocks, homes, used) && BlocksOk(blocks, homes, used, elems, done + {x}) && v == elems[x]
    {
      assert BlockOk(blocks, homes, elems, done, x / 32);
      assert SlotOk(blocks[homes[x / 32]], elems, done, x / 32, x % 32);
      v := blocks[b].data[i].value;
      ghost var was := blocks;
      blocks := blocks[b := blocks[b].(data := blocks[b].data[i := None], flags := blocks[b].flags[31 - i := true])];
      SameRing(was, blocks, homes, used);
      TakeSlots(was, blocks, homes, used, elems, done, x);
    }
  }
}
