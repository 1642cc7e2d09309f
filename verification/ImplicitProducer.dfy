/** The implicit producer of concurrentqueue.h: blocks of 32 slots, found through the block index. One thread
    enqueues, one by one or in bulk; any number of consumers claim indices and then, load by load, find their entry
    through the index they have seen. Here an enqueue is one step for the consumers; what they may meet in the middle
    of one is in ImplicitRace. */
module ImplicitProducer {
  import opened Prelude
  import opened CircularIndex
  import opened ImplicitIndex
  import D = DequeueCounters

  /** `count` is elementsCompletelyDequeued. */
  datatype Block<+T> = Block(count: nat, next: Option<nat>, data: seq<Option<T>>)

  // ----- Blocks and elements -----

  /** How many of the first i elements of block number n have been dequeued. */
  ghost function DoneIn(done: set<nat>, n: nat, i: nat): (c: nat)
    ensures c <= i
  {
    if i == 0 then 0 else DoneIn(done, n, i - 1) + if 32 * n + i - 1 in done then 1 else 0
  }

  lemma {:induction false} DoneInSame(done: set<nat>, done': set<nat>, n: nat, i: nat)
    requires forall x :: 32 * n <= x < 32 * n + i ==> (x in done <==> x in done')
    ensures DoneIn(done, n, i) == DoneIn(done', n, i)
  {
    if i > 0 { DoneInSame(done, done', n, i - 1); }
  }

  lemma {:induction false} DoneInMore(done: set<nat>, n: nat, i: nat, x: nat)
    requires 32 * n <= x < 32 * n + i && x !in done
    ensures DoneIn(done + {x}, n, i) == DoneIn(done, n, i) + 1
  {
    if x == 32 * n + i - 1 {
      DoneInSame(done, done + {x}, n, i - 1);
    } else {
      DoneInMore(done, n, i - 1, x);
    }
  }

  lemma {:induction false} DoneInFull(done: set<nat>, n: nat, i: nat)
    ensures DoneIn(done, n, i) == i <==> forall x :: 32 * n <= x < 32 * n + i ==> x in done
  {
    if i > 0 { DoneInFull(done, n, i - 1); }
  }

  lemma {:induction false} NoneDone(done: set<nat>, n: nat, i: nat)
    requires forall x :: x in done ==> x < 32 * n
    ensures DoneIn(done, n, i) == 0
  {
    if i > 0 { NoneDone(done, n, i - 1); }
  }

  ghost predicate SlotHolds<T>(b: Block<T>, elems: seq<T>, done: set<nat>, n: nat, i: nat) {
    |b.data| == 32 && i < 32 && (32 * n + i < |elems| && 32 * n + i !in done ==> b.data[i] == Some(elems[32 * n + i]))
  }

  ghost predicate BlockOk<T>(b: Block<T>, elems: seq<T>, done: set<nat>, n: nat) {
    && |b.data| == 32 && b.count == DoneIn(done, n, 32)
    && forall i {:trigger SlotHolds(b, elems, done, n, i)} :: 0 <= i < 32 ==> SlotHolds(b, elems, done, n, i)
  }

  ghost predicate BlockAt<T>(blocks: map<nat, Block<T>>, homes: map<nat, nat>, elems: seq<T>, done: set<nat>, n: nat) {
    n in homes && homes[n] in blocks && BlockOk(blocks[homes[n]], elems, done, n)
  }

  ghost predicate StoreOk<T>(blocks: map<nat, Block<T>>, homes: map<nat, nat>, elems: seq<T>, done: set<nat>) {
    && (forall n {:trigger BlockAt(blocks, homes, elems, done, n)} ::
          n in homes ==> BlockAt(blocks, homes, elems, done, n))
    && (forall n, m :: n in homes && m in homes && n != m ==> homes[n] != homes[m])
  }

  /** A block that has just been got from the pool, with none of its elements dequeued. */
  lemma StoreNewBlock<T>(
    blocks: map<nat, Block<T>>, homes: map<nat, nat>, elems: seq<T>, done: set<nat>, n: nat, id: nat, b: Block<T>)
    requires StoreOk(blocks, homes, elems, done) && id !in blocks && n !in homes && |elems| <= 32 * n
    requires |b.data| == 32 && b.count == 0 && forall x :: x in done ==> x < |elems|
    ensures StoreOk(blocks[id := b], homes[n := id], elems, done)
  {
    NoneDone(done, n, 32);
    forall i | 0 <= i < 32 ensures SlotHolds(b, elems, done, n, i) {}
    forall m {:trigger BlockAt(blocks[id := b], homes[n := id], elems, done, m)} | m in homes[n := id]
      ensures BlockAt(blocks[id := b], homes[n := id], elems, done, m)
    {
      if m != n { assert BlockAt(blocks, homes, elems, done, m); }
    }
    forall m | m in homes ensures homes[m] != id { assert BlockAt(blocks, homes, elems, done, m); }
  }

  /** Writing slot |elems| of the tail block, which then holds the new element. */
  lemma StoreElement<T>(
    blocks: map<nat, Block<T>>, homes: map<nat, nat>, elems: seq<T>, done: set<nat>, x: T, b': Block<T>)
    requires StoreOk(blocks, homes, elems, done) && |elems| / 32 in homes && homes[|elems| / 32] in blocks
    requires var b := blocks[homes[|elems| / 32]];
      |b.data| == 32 && b' == b.(data := b.data[|elems| % 32 := Some(x)])
    requires forall y :: y in done ==> y < |elems|
    ensures StoreOk(blocks[homes[|elems| / 32] := b'], homes, elems + [x], done)
  {
    var blocks' := blocks[homes[|elems| / 32] := b'];
    forall n {:trigger BlockAt(blocks', homes, elems + [x], done, n)} | n in homes
      ensures BlockAt(blocks', homes, elems + [x], done, n)
    {
      assert BlockAt(blocks, homes, elems, done, n);
      forall i | 0 <= i < 32 ensures SlotHolds(blocks'[homes[n]], elems + [x], done, n, i) {
        assert SlotHolds(blocks[homes[n]], elems, done, n, i);
      }
    }
  }

  /** Element x is moved out and counted. */
  lemma StoreTaken<T>(
    blocks: map<nat, Block<T>>, homes: map<nat, nat>, elems: seq<T>, done: set<nat>, x: nat, b': Block<T>)
    requires StoreOk(blocks, homes, elems, done) && x / 32 in homes && homes[x / 32] in blocks && x !in done
    requires var b := blocks[homes[x / 32]];
      |b.data| == 32 && b' == b.(data := b.data[x % 32 := None], count := b.count + 1)
    ensures StoreOk(blocks[homes[x / 32] := b'], homes, elems, done + {x})
  {
    var blocks' := blocks[homes[x / 32] := b'];
    forall n {:trigger BlockAt(blocks', homes, elems, done + {x}, n)} | n in homes
      ensures BlockAt(blocks', homes, elems, done + {x}, n)
    {
      assert BlockAt(blocks, homes, elems, done, n);
      if n == x / 32 { DoneInMore(done, n, 32, x); } else { DoneInSame(done, done + {x}, n, 32); }
      forall i | 0 <= i < 32 ensures SlotHolds(blocks'[homes[n]], elems, done + {x}, n, i) {
        assert SlotHolds(blocks[homes[n]], elems, done, n, i);
      }
    }
  }

  /** A block that is no longer in the index can be given back. */
  lemma StoreFreed<T>(blocks: map<nat, Block<T>>, homes: map<nat, nat>, homes': map<nat, nat>, elems: seq<T>,
      done: set<nat>, n: nat)
    requires StoreOk(blocks, homes, elems, done) && n in homes && homes' == homes - {n}
    ensures StoreOk(blocks - {homes[n]}, homes', elems, done)
  {
    var blocks' := blocks - {homes[n]};
    forall m {:trigger BlockAt(blocks', homes', elems, done, m)} | m in homes'
      ensures BlockAt(blocks', homes', elems, done, m)
    {
      assert BlockAt(blocks, homes, elems, done, m);
    }
  }

  // ----- Bulk -----

  /** The homes are those there were before, and blocks ids[i..] for the numbers from `first` + i on. */
  ghost predicate HomesFrom(homes: map<nat, nat>, before: map<nat, nat>, first: nat, ids: seq<nat>, i: nat) {
    forall n: nat {:trigger HomeOf(homes, n)} ::
      HomeOf(homes, n) == if first + i <= n < first + |ids| then Some(ids[n - first]) else HomeOf(before, n)
  }

  /** The blocks are chained through their next pointers. */
  ghost predicate Chain<T>(blocks: map<nat, Block<T>>, ids: seq<nat>) {
    && (forall i :: 0 <= i < |ids| ==> ids[i] in blocks)
    && (forall i :: 0 <= i < |ids| ==> LinkAt(blocks, ids, i))
    && (forall i, j :: 0 <= i < j < |ids| ==> ids[i] != ids[j])
  }

  ghost predicate LinkAt<T>(blocks: map<nat, Block<T>>, ids: seq<nat>, i: nat) {
    && i < |ids| && ids[i] in blocks
    && blocks[ids[i]].next == if i + 1 < |ids| then Some(ids[i + 1]) else None
  }

  function WithNext<T>(blocks: map<nat, Block<T>>, id: nat, next: Option<nat>): map<nat, Block<T>>
    requires id in blocks
  {
    blocks[id := blocks[id].(next := next)]
  }

  lemma StoreNext<T>(
    blocks: map<nat, Block<T>>, homes: map<nat, nat>, elems: seq<T>, done: set<nat>, id: nat, next: Option<nat>)
    requires StoreOk(blocks, homes, elems, done) && id in blocks
    ensures StoreOk(WithNext(blocks, id, next), homes, elems, done)
  {
    forall n {:trigger BlockAt(WithNext(blocks, id, next), homes, elems, done, n)} | n in homes
      ensures BlockAt(WithNext(blocks, id, next), homes, elems, done, n)
    {
      assert BlockAt(blocks, homes, elems, done, n);
      forall i | 0 <= i < 32 ensures SlotHolds(WithNext(blocks, id, next)[homes[n]], elems, done, n, i) {
        assert SlotHolds(blocks[homes[n]], elems, done, n, i);
      }
    }
  }

  /** Linking a new block behind the chain. */
  lemma ChainMore<T>(blocks: map<nat, Block<T>>, blocks': map<nat, Block<T>>, ids: seq<nat>, id: nat)
    requires Chain(blocks, ids) && id !in blocks && id in blocks' && blocks'[id].next == None
    requires forall b :: b in blocks ==> b in blocks'
    requires forall i :: 0 <= i < |ids| - 1 ==> blocks'[ids[i]].next == blocks[ids[i]].next
    requires ids != [] ==> blocks'[ids[|ids| - 1]].next == Some(id)
    ensures Chain(blocks', ids + [id])
  {
    var ids' := ids + [id];
    forall i | 0 <= i < |ids'| ensures LinkAt(blocks', ids', i) {
      if i < |ids| { assert LinkAt(blocks, ids, i); }
    }
  }

  lemma StoreFewer<T>(blocks: map<nat, Block<T>>, homes: map<nat, nat>, elems: seq<T>, done: set<nat>, n: nat)
    requires StoreOk(blocks, homes, elems, done)
    ensures StoreOk(blocks, homes - {n}, elems, done)
  {
    forall m {:trigger BlockAt(blocks, homes - {n}, elems, done, m)} | m in homes - {n}
      ensures BlockAt(blocks, homes - {n}, elems, done, m)
    {
      assert BlockAt(blocks, homes, elems, done, m);
    }
  }

  lemma StoreWithout<T>(blocks: map<nat, Block<T>>, homes: map<nat, nat>, elems: seq<T>, done: set<nat>, id: nat)
    requires StoreOk(blocks, homes, elems, done) && forall n :: n in homes ==> homes[n] != id
    ensures StoreOk(blocks - {id}, homes, elems, done)
  {
    forall m {:trigger BlockAt(blocks - {id}, homes, elems, done, m)} | m in homes
      ensures BlockAt(blocks - {id}, homes, elems, done, m)
    {
      assert BlockAt(blocks, homes, elems, done, m);
    }
  }

  lemma SameHomes(homes: map<nat, nat>, before: map<nat, nat>, first: nat, ids: seq<nat>)
    requires HomesFrom(homes, before, first, ids, |ids|)
    ensures homes == before
  {
    forall n: nat ensures n in homes <==> n in before { assert HomeOf(homes, n) == HomeOf(before, n); }
    forall n | n in homes ensures homes[n] == before[n] { assert HomeOf(homes, n) == HomeOf(before, n); }
  }

  lemma HomesMore(homes: map<nat, nat>, before: map<nat, nat>, first: nat, ids: seq<nat>, id: nat)
    requires HomesFrom(homes, before, first, ids, 0)
    ensures HomesFrom(homes[first + |ids| := id], before, first, ids + [id], 0)
  {
    var homes' := homes[first + |ids| := id];
    forall n: nat ensures HomeOf(homes', n) ==
      if first <= n < first + |ids| + 1 then Some((ids + [id])[n - first]) else HomeOf(before, n)
    {
      assert HomeOf(homes, n) == if first <= n < first + |ids| then Some(ids[n - first]) else HomeOf(before, n);
    }
  }

  lemma HomesLess(homes: map<nat, nat>, before: map<nat, nat>, first: nat, ids: seq<nat>, i: nat)
    requires HomesFrom(homes, before, first, ids, i) && i < |ids| && first + i !in before
    ensures first + i in homes && homes[first + i] == ids[i]
    ensures HomesFrom(homes - {first + i}, before, first, ids, i + 1)
  {
    assert HomeOf(homes, first + i) == Some(ids[i]);
    var homes' := homes - {first + i};
    forall n: nat ensures HomeOf(homes', n) ==
      if first + i + 1 <= n < first + |ids| then Some(ids[n - first]) else HomeOf(before, n)
    {
      assert HomeOf(homes, n) == if first + i <= n < first + |ids| then Some(ids[n - first]) else HomeOf(before, n);
    }
  }

  /** Elements written ahead of the tail: items[..upto] are in the slots from `start` on. */
  ghost predicate FilledAt<T>(blocks: map<nat, Block<T>>, homes: map<nat, nat>, x: T, at: nat) {
    && at / 32 in homes && homes[at / 32] in blocks && |blocks[homes[at / 32]].data| == 32
    && blocks[homes[at / 32]].data[at % 32] == Some(x)
  }

  ghost predicate Filled<T>(blocks: map<nat, Block<T>>, homes: map<nat, nat>, items: seq<T>, start: nat, upto: nat) {
    upto <= |items| && forall j :: 0 <= j < upto ==> FilledAt(blocks, homes, items[j], start + j)
  }

  ghost predicate SameNext<T>(blocks: map<nat, Block<T>>, blocks': map<nat, Block<T>>) {
    forall id :: id in blocks ==> id in blocks' && blocks'[id].next == blocks[id].next
  }

  lemma FillOne<T>(
    blocks: map<nat, Block<T>>, homes: map<nat, nat>, elems: seq<T>, done: set<nat>, items: seq<T>, k: nat,
    b': Block<T>)
    requires StoreOk(blocks, homes, elems, done) && Filled(blocks, homes, items, |elems|, k) && k < |items|
    requires (|elems| + k) / 32 in homes && homes[(|elems| + k) / 32] in blocks
    requires var b := blocks[homes[(|elems| + k) / 32]];
      |b.data| == 32 && b' == b.(data := b.data[(|elems| + k) % 32 := Some(items[k])])
    ensures var blocks' := blocks[homes[(|elems| + k) / 32] := b'];
      && StoreOk(blocks', homes, elems, done) && Filled(blocks', homes, items, |elems|, k + 1)
      && SameNext(blocks, blocks')
  {
    var at := |elems| + k;
    var blocks' := blocks[homes[at / 32] := b'];
    forall n {:trigger BlockAt(blocks', homes, elems, done, n)} | n in homes
      ensures BlockAt(blocks', homes, elems, done, n)
    {
      assert BlockAt(blocks, homes, elems, done, n);
      forall i | 0 <= i < 32 ensures SlotHolds(blocks'[homes[n]], elems, done, n, i) {
        assert SlotHolds(blocks[homes[n]], elems, done, n, i);
      }
    }
    forall j | 0 <= j < k + 1 ensures FilledAt(blocks', homes, items[j], |elems| + j) {
      if j < k {
        assert FilledAt(blocks, homes, items[j], |elems| + j);
        assert (|elems| + j) / 32 == at / 32 ==> (|elems| + j) % 32 != at % 32;
      }
    }
  }

  lemma FilledAll<T>(blocks: map<nat, Block<T>>, homes: map<nat, nat>, elems: seq<T>, done: set<nat>, items: seq<T>)
    requires StoreOk(blocks, homes, elems, done) && Filled(blocks, homes, items, |elems|, |items|)
    ensures StoreOk(blocks, homes, elems + items, done)
  {
    forall n {:trigger BlockAt(blocks, homes, elems + items, done, n)} | n in homes
      ensures BlockAt(blocks, homes, elems + items, done, n)
    {
      assert BlockAt(blocks, homes, elems, done, n);
      forall i | 0 <= i < 32 ensures SlotHolds(blocks[homes[n]], elems + items, done, n, i) {
        assert SlotHolds(blocks[homes[n]], elems, done, n, i);
        var j := 32 * n + i - |elems|;
        if 0 <= j < |items| { assert FilledAt(blocks, homes, items[j], |elems| + j); }
      }
    }
  }

  /** The blocks from number a to number b are chained. */
  ghost predicate RoadAt<T>(blocks: map<nat, Block<T>>, homes: map<nat, nat>, n: nat) {
    n in homes && n + 1 in homes && homes[n] in blocks && blocks[homes[n]].next == Some(homes[n + 1])
  }

  ghost predicate Road<T>(blocks: map<nat, Block<T>>, homes: map<nat, nat>, a: nat, b: nat) {
    forall n {:trigger RoadAt(blocks, homes, n)} :: a <= n < b ==> RoadAt(blocks, homes, n)
  }

  lemma RoadKept<T>(blocks: map<nat, Block<T>>, blocks': map<nat, Block<T>>, homes: map<nat, nat>, a: nat, b: nat)
    requires Road(blocks, homes, a, b) && SameNext(blocks, blocks')
    ensures Road(blocks', homes, a, b)
  {
    forall n {:trigger RoadAt(blocks', homes, n)} | a <= n < b ensures RoadAt(blocks', homes, n) {
      assert RoadAt(blocks, homes, n);
    }
  }

  /** What a bulk enqueue has reserved so far: blocks ids, one after the other, from block number `first` on.
      `start` is the tail block it began with, which has room left if `partial`. */
  datatype Reserved = Reserved(before: map<nat, nat>, first: nat, ids: seq<nat>, start: Option<nat>, partial: bool)

  ghost function Grown(r: Reserved, id: nat): Reserved { r.(ids := r.ids + [id]) }

  ghost predicate Reserving<T>(blocks: map<nat, Block<T>>, homes: map<nat, nat>, tailBlock: Option<nat>, r: Reserved) {
    && HomesFrom(homes, r.before, r.first, r.ids, 0) && Chain(blocks, r.ids)
    && tailBlock == (if r.ids == [] then r.start else Some(r.ids[|r.ids| - 1]))
    && (r.partial ==>
        && r.first > 0 && r.first - 1 in r.before && r.start == Some(r.before[r.first - 1]) && r.start.value in blocks
        && (r.ids != [] ==> blocks[r.start.value].next == Some(r.ids[0]))
        && forall i :: 0 <= i < |r.ids| ==> r.ids[i] != r.start.value)
  }

  /** The blocks a bulk enqueue has started are none of those it found. */
  lemma ReservedApart<T>(
    blocks: map<nat, Block<T>>, homes: map<nat, nat>, elems: seq<T>, done: set<nat>, tailBlock: Option<nat>,
    r: Reserved)
    requires Reserving(blocks, homes, tailBlock, r) && StoreOk(blocks, homes, elems, done)
    requires forall n :: n in r.before ==> n < r.first
    ensures forall n, i :: n in r.before && 0 <= i < |r.ids| ==> r.before[n] != r.ids[i]
    ensures r.ids != [] ==> r.first in homes
  {
    forall n, i | n in r.before && 0 <= i < |r.ids| ensures r.before[n] != r.ids[i] {
      assert HomeOf(homes, n) == Some(r.before[n]) && HomeOf(homes, r.first + i) == Some(r.ids[i]);
    }
    if r.ids != [] { assert HomeOf(homes, r.first) == Some(r.ids[0]); }
  }

  /** The chain leads from the block at the tail to the last block started. */
  lemma ReservedRoad<T>(blocks: map<nat, Block<T>>, homes: map<nat, nat>, tailBlock: Option<nat>, r: Reserved, a: nat)
    requires Reserving(blocks, homes, tailBlock, r) && (r.partial || r.ids != [])
    requires a == (if r.partial then r.first - 1 else r.first)
    ensures r.first + |r.ids| > 0 && Road(blocks, homes, a, r.first + |r.ids| - 1)
    ensures a in homes && Some(homes[a]) == if r.partial then r.start else Some(r.ids[0])
    ensures r.first + |r.ids| - 1 in homes && tailBlock == Some(homes[r.first + |r.ids| - 1])
  {
    ReservedHomes(homes, r);
    if r.partial { assert HomeOf(homes, r.first - 1) == Some(r.before[r.first - 1]); }
    forall n {:trigger RoadAt(blocks, homes, n)} | a <= n < r.first + |r.ids| - 1 ensures RoadAt(blocks, homes, n) {
      if n >= r.first {
        assert LinkAt(blocks, r.ids, n - r.first) && HomeAt(homes, r, n - r.first) && HomeAt(homes, r, n + 1 - r.first);
      } else {
        assert HomeAt(homes, r, 0);
      }
    }
    if r.ids != [] { assert HomeAt(homes, r, 0) && HomeAt(homes, r, |r.ids| - 1); }
  }

  ghost predicate HomeAt(homes: map<nat, nat>, r: Reserved, i: nat) {
    i < |r.ids| && r.first + i in homes && homes[r.first + i] == r.ids[i]
  }

  lemma ReservedHomes(homes: map<nat, nat>, r: Reserved)
    requires HomesFrom(homes, r.before, r.first, r.ids, 0)
    ensures forall i {:trigger HomeAt(homes, r, i)} :: 0 <= i < |r.ids| ==> HomeAt(homes, r, i)
  {
    forall i {:trigger HomeAt(homes, r, i)} | 0 <= i < |r.ids| ensures HomeAt(homes, r, i) {
      assert HomeOf(homes, r.first + i) == Some(r.ids[i]);
    }
  }

  lemma ReserveMore<T>(
    blocks: map<nat, Block<T>>, homes: map<nat, nat>, tailBlock: Option<nat>, r: Reserved, id: nat, b: Block<T>,
    chained: bool)
    requires Reserving(blocks, homes, tailBlock, r) && id !in blocks && b.next == None
    requires chained <==> r.partial || r.ids != []
    ensures chained ==> tailBlock.Some? && tailBlock.value in blocks
    ensures var blocks' := blocks[id := b];
      Reserving(if chained then WithNext(blocks', tailBlock.value, Some(id)) else blocks',
                homes[r.first + |r.ids| := id], Some(id), Grown(r, id))
  {
    HomesMore(homes, r.before, r.first, r.ids, id);
    var blocks' := if chained then WithNext(blocks[id := b], tailBlock.value, Some(id)) else blocks[id := b];
    ChainMore(blocks, blocks', r.ids, id);
  }

  // ----- Counters -----

  ghost predicate WithinLimit(limit: Option<nat>, span: int) {
    span < HALF64 && (limit.Some? ==> span <= limit.value)
  }

  ghost predicate CountersOk(tailIndex: nat, headIndex: nat, tail: nat, head: nat, done: set<nat>) {
    && tailIndex == D.Wrap(tail) && headIndex == D.Wrap(head) && head <= tail && forall x :: x in done ==> x < head
  }

  /** The blocks in use are those started that have not been drained, and what they span is within the limits. */
  ghost predicate UseOk(homes: map<nat, nat>, done: set<nat>, tail: nat, head: nat, next: nat, limit: Option<nat>) {
    && tail <= 32 * next && (forall n: nat :: n in homes <==> n < next && !DrainedBlock(done, n))
    && (next > 0 ==> WithinLimit(limit, 32 * next - head))
  }

  /** The next block is in use once it has been started. */
  lemma UseStarted(homes: map<nat, nat>, done: set<nat>, tail: nat, head: nat, next: nat, limit: Option<nat>, id: nat)
    requires UseOk(homes, done, tail, head, next, limit) && head <= tail && forall x :: x in done ==> x < head
    requires WithinLimit(limit, 32 * next + 32 - head)
    ensures next !in homes && UseOk(homes[next := id], done, tail, head, next + 1, limit)
  {
    assert 32 * next !in done;
  }

  /** A block stays in use until the last of its 32 elements has been taken. */
  lemma UseTaken(
    homes: map<nat, nat>, homes': map<nat, nat>, done: set<nat>, tail: nat, head: nat, next: nat, limit: Option<nat>,
    x: nat)
    requires UseOk(homes, done, tail, head, next, limit) && x / 32 in homes
    requires homes' == if DrainedBlock(done + {x}, x / 32) then homes - {x / 32} else homes
    ensures UseOk(homes', done + {x}, tail, head, next, limit)
  {
    forall n: nat ensures n in homes' <==> n < next && !DrainedBlock(done + {x}, n) {
      if n != x / 32 {
        forall y | 32 * n <= y < 32 * n + 32 ensures y in done + {x} <==> y in done { assert y / 32 == n; }
      }
    }
  }

  /** The test for too large a span, on wrapped words. */
  function Full(limit: Option<nat>, headIndex: nat, at: nat): bool {
    || !D.CircularLess(headIndex, D.Wrap(at + 32))
    || (limit.Some? && (limit.value < 32 || limit.value - 32 < D.Wrap(at - headIndex)))
  }

  lemma FullMeans(limit: Option<nat>, head: nat, at: nat)
    requires 0 <= at - head <= HALF64
    ensures Full(limit, D.Wrap(head), D.Wrap(at)) <==> !WithinLimit(limit, at + 32 - head)
    ensures !D.CircularLess(D.Wrap(at), D.Wrap(head))
  {
    WordsCompare(at, head);
  }

  class ImplicitProducer<T> {
    /** MAX_SUBQUEUE_SIZE, a multiple of 32, if there is one. */
    const limit: Option<nat>
    var blocks: map<nat, Block<T>>
    var tailBlock: Option<nat>
    /** All entries ever allocated, and every index ever built; the last one is the current blockIndex. */
    var entries: seq<Entry>
    var headers: seq<Header>
    var nextBlockIndexCapacity: nat
    var tailIndex: nat
    var headIndex: nat
    /** Everything ever enqueued; the elements from `head` on have not been claimed, those in `done` were taken. */
    ghost var elems: seq<T>
    ghost var head: nat
    ghost var done: set<nat>
    /** The blocks that are in use, by number. */
    ghost var homes: map<nat, nat>
    ghost var v: View
    ghost var readers: map<nat, Reader>

    ghost predicate IndexPart(skip: Option<nat>)
      reads this`entries, this`headers, this`nextBlockIndexCapacity, this`v, this`homes, this`readers
    {
      && IndexBut(entries, headers, v, homes, skip) && ReadersOk(readers, headers, v, homes)
      && nextBlockIndexCapacity == 2 * headers[|headers| - 1].capacity
    }

    /** Entry e has just been taken for block number n. */
    ghost predicate Taken(n: nat, e: nat)
      reads this`headers, this`v
    {
      && headers != [] && |v.marks| == |headers| && v.next == n + 1 && e < |v.nums| && v.nums[e] == Some(n)
      && n < v.top <= n + headers[|headers| - 1].capacity
      && NumberAt(headers[|headers| - 1], v.marks[|headers| - 1], v.nums, n, Some(n))
    }

    function LastCapacity(): nat
      reads this`headers
    {
      if headers == [] then 0 else headers[|headers| - 1].capacity
    }

    /** Stores the key of the entry behind the tail and moves the tail. */
    method UseEntry(ghost e: nat, base: nat)
      requires IndexPart(None) && v.next !in homes && FreeEntry(v, homes, e) && base == Base(v.next)
      requires NewTail(headers) < |headers[|headers| - 1].index|
      requires e == headers[|headers| - 1].index[NewTail(headers)] < |entries|
      modifies this`entries, this`headers, this`v
      ensures IndexPart(Some(e)) && Taken(old(v.next), e) && LastCapacity() == old(LastCapacity())
    {
      UseIndex(entries, headers, v, homes, e);
      UseReaders(readers, headers, v, homes, e, NewTail(headers));
      var newTail := NewTail(headers);
      var i := headers[|headers| - 1].index[newTail];
      entries := entries[i := entries[i].(key := base)];
      headers := TailMoved(headers, newTail);
      v := Used(v, e);
    }

    /** Allocates an index of twice the capacity; `junk` is what the values of unused entries happen to be. */
    method NewBlockIndex(ghost e: nat, junk: Option<nat>)
      requires IndexPart(None) && v.next !in homes && InUse(v, homes, e)
      requires NewTail(headers) < |headers[|headers| - 1].index|
      requires e == headers[|headers| - 1].index[NewTail(headers)]
      requires 2 * LastCapacity() <= MAX_ENTRIES
      modifies this`entries, this`headers, this`nextBlockIndexCapacity, this`v
      ensures IndexPart(None) && v.next == old(v.next) == v.top
      ensures v.next < v.marks[|headers| - 1].origin + LastCapacity() && LastCapacity() >= old(LastCapacity())
    {
      ghost var c := |headers| - 1;
      assert HeaderOk(headers[c], v.marks[c], v.nums);
      FullWhenInUse(headers, v, homes, e);
      OrderBelow(v.marks[c].order);
      var prev := headers[|headers| - 1];
      var h := BuildIndex(prev, v.marks[c], v.next, |entries|);
      var added := seq(prev.capacity, _ => Entry(INVALID_BLOCK_BASE, junk));
      ghost var k := Mark(v.next - prev.capacity, v.marks[c].order + 1);
      ghost var v' := v.(nums := v.nums + seq(|added|, _ => None), marks := v.marks + [k]);
      GrowIndex(entries, headers, v, homes, h, k, added, v');
      GrowReaders(readers, headers, v, v', homes, h, k);
      Install(h, added, v');
    }

    method Install(h: Header, added: seq<Entry>, ghost v': View)
      requires IndexOk(entries + added, headers + [h], v', homes) && ReadersOk(readers, headers + [h], v', homes)
      requires nextBlockIndexCapacity == h.capacity
      modifies this`entries, this`headers, this`nextBlockIndexCapacity, this`v
      ensures IndexPart(None) && v == v' && headers == old(headers) + [h]
    {
      entries, headers, v := entries + added, headers + [h], v';
      nextBlockIndexCapacity := 2 * nextBlockIndexCapacity;
    }

    /** Takes the entry behind the tail, growing the index if it is in use. */
    method InsertEntry(base: nat, canAlloc: bool, indexOk: bool, junk: Option<nat>) returns (ok: bool, i: nat)
      requires IndexPart(None) && v.next !in homes && base == Base(v.next)
      requires canAlloc && indexOk ==> 2 * LastCapacity() <= MAX_ENTRIES
      modifies this`entries, this`headers, this`nextBlockIndexCapacity, this`v
      ensures if ok then IndexPart(Some(i)) && Taken(old(v.next), i) else unchanged(this)
      ensures LastCapacity() >= old(LastCapacity())
      ensures var capacity := old(headers[|headers| - 1].capacity);
        ok <==> (canAlloc && indexOk) || old(v.next) < capacity || old(v.next) - capacity !in homes
    {
      ghost var e := EntryTest(entries, headers, v, homes);
      FreeMeans(headers, v, homes, entries, e);
      i := headers[|headers| - 1].index[NewTail(headers)];
      if entries[i].key == INVALID_BLOCK_BASE || entries[i].value == None {
        UseEntry(e, base);
        return true, i;
      }
      if !canAlloc || !indexOk { return false, i; }
      NewBlockIndex(e, junk);
      e := EntryTest(entries, headers, v, homes);
      UnusedEntry(entries, headers, v, homes, e);
      i := headers[|headers| - 1].index[NewTail(headers)];
      assert entries[i].key == INVALID_BLOCK_BASE;
      UseEntry(e, base);
      return true, i;
    }

    ghost predicate StorePart()
      reads this`blocks, this`homes, this`elems, this`done
    {
      StoreOk(blocks, homes, elems, done)
    }

    ghost predicate CounterPart()
      reads this`tailIndex, this`headIndex, this`elems, this`head, this`done, this`homes, this`v
    {
      CountersOk(tailIndex, headIndex, |elems|, head, done) && UseOk(homes, done, |elems|, head, v.next, limit)
    }

    /** Consumers read on behalf of elements they have claimed and not taken. */
    ghost predicate ClaimPart()
      reads this`readers, this`head, this`done
    {
      forall x :: x in readers ==> x < head && x !in done
    }

    /** The invariant while blocks may have been started that hold no elements yet. */
    ghost predicate Ready()
      reads this
    {
      IndexPart(None) && StorePart() && CounterPart() && ClaimPart()
    }

    ghost predicate Valid()
      reads this
    {
      && Ready() && 32 * v.next < |elems| + 32
      && (|elems| % 32 != 0 ==> v.next > 0 && v.next - 1 in homes && tailBlock == Some(homes[v.next - 1]))
    }

    /** The elements that have not been claimed by a consumer. */
    ghost function Contents(): seq<T>
      reads this
      requires head <= |elems|
    {
      elems[head..]
    }

    constructor (order: nat, limit: Option<nat>, junk: Option<nat>)
      requires order <= 58
      ensures Valid() && elems == [] && head == 0 && done == {} && homes == map[] && readers == map[]
      ensures headers[|headers| - 1].capacity == Pow2(order)
    {
      this.limit := limit;
      blocks, tailBlock, tailIndex, headIndex := map[], None, 0, 0;
      entries := seq(Pow2(order), _ => Entry(INVALID_BLOCK_BASE, junk));
      headers := [Header(Pow2(order), Pow2(order) - 1, seq(Pow2(order), (i: nat) => i))];
      nextBlockIndexCapacity := 2 * Pow2(order);
      elems, head, done, homes, readers := [], 0, {}, map[], map[];
      v := View(seq(Pow2(order), _ => None), [Mark(0, order)], 0, 0);
      new;
      FirstIndex(headers[0], order, entries, v);
    }

    /** Stores the value of entry i, whose key is that of block number n. */
    method SetValue(i: nat, value: Option<nat>, ghost n: nat, ghost skip: Option<nat>, ghost homes': map<nat, nat>)
      requires IndexPart(skip) && (skip.Some? ==> skip == Some(i)) && i < |v.nums| && v.nums[i] == Some(n)
      requires value == HomeOf(homes', n) && forall m :: m != n ==> HomeOf(homes', m) == HomeOf(homes, m)
      requires n in homes' ==> n < v.top && NumberAt(headers[|headers| - 1], v.marks[|headers| - 1], v.nums, n, Some(n))
      requires forall x :: x in readers ==> x / 32 in homes'
      modifies this`entries, this`homes
      ensures IndexPart(None) && homes == homes'
    {
      ValueStored(entries, headers, v, homes, homes', skip, i, n);
      assert i < |entries|;
      entries := entries[i := entries[i].(value := value)];
      homes := homes';
    }

    method Rewind(ghost skip: Option<nat>)
      requires IndexPart(skip) && v.next > v.marks[|headers| - 1].origin
      requires v.top < v.next + headers[|headers| - 1].capacity
      modifies this`headers, this`v
      ensures IndexPart(skip) && v == old(v).(next := old(v.next) - 1)
      ensures LastCapacity() == old(LastCapacity())
    {
      RewindIndex(entries, headers, v, homes, skip);
      var h := headers[|headers| - 1];
      MovedReaders(readers, headers, v, v.(next := v.next - 1), homes, PrevSlot(h.tail, h.capacity));
      headers := TailMoved(headers, PrevSlot(h.tail, h.capacity));
      v := v.(next := v.next - 1);
    }

    /** Whether another block can be started: it stays within the limits, the block one capacity before it is out
        of use or the index can grow, and the pool has a block. */
    ghost predicate CanStart(index: bool, block: bool)
      reads this
    {
      && headers != [] && WithinLimit(limit, 32 * v.next + 32 - head)
      && (index || v.next < headers[|headers| - 1].capacity || v.next - headers[|headers| - 1].capacity !in homes)
      && block
    }

    method IsFull(at: nat) returns (full: bool)
      requires CounterPart() && at == Base(v.next)
      ensures full <==> !WithinLimit(limit, 32 * v.next + 32 - head)
    {
      BaseIsWrap(v.next);
      FullMeans(limit, head, 32 * v.next);
      assert !D.CircularLess(at, headIndex);
      full := Full(limit, headIndex, at);
    }

    /** Starts block number v.next, whose base is `at`, or leaves everything as it was. */
    method StartOne(at: nat, canAlloc: bool, indexOk: bool, pool: Option<nat>, data: seq<Option<T>>, junk: Option<nat>)
      returns (ok: bool, id: nat)
      requires Ready() && at == Base(v.next) && |data| == 32 && (pool.Some? ==> pool.value !in blocks)
      requires canAlloc && indexOk ==> 2 * LastCapacity() <= MAX_ENTRIES
      modifies this`blocks, this`entries, this`headers, this`nextBlockIndexCapacity, this`homes, this`v
      ensures Ready() && (ok <==> old(CanStart(canAlloc && indexOk, pool.Some?)))
      ensures LastCapacity() >= old(LastCapacity())
      ensures if ok
        then pool == Some(id) && v.next == old(v.next) + 1 && homes == old(homes)[old(v.next) := id]
          && blocks == old(blocks)[id := Block(0, None, data)]
        else v.next == old(v.next) && homes == old(homes) && blocks == old(blocks)
    {
      var full := IsFull(at);
      if full { return false, 0; }
      ok, id := StartWithin(at, canAlloc, indexOk, pool, data, junk);
    }

    method StartWithin(
      at: nat, canAlloc: bool, indexOk: bool, pool: Option<nat>, data: seq<Option<T>>, junk: Option<nat>)
      returns (ok: bool, id: nat)
      requires Ready() && at == Base(v.next) && |data| == 32 && (pool.Some? ==> pool.value !in blocks)
      requires canAlloc && indexOk ==> 2 * LastCapacity() <= MAX_ENTRIES
      requires WithinLimit(limit, 32 * v.next + 32 - head)
      modifies this`blocks, this`entries, this`headers, this`nextBlockIndexCapacity, this`homes, this`v
      ensures Ready() && (ok <==> old(CanStart(canAlloc && indexOk, pool.Some?)))
      ensures LastCapacity() >= old(LastCapacity())
      ensures if ok
        then pool == Some(id) && v.next == old(v.next) + 1 && homes == old(homes)[old(v.next) := id]
          && blocks == old(blocks)[id := Block(0, None, data)]
        else v.next == old(v.next) && homes == old(homes) && blocks == old(blocks)
    {
      UseStarted(homes, done, |elems|, head, v.next, limit, 0);
      ghost var n := v.next;
      var inserted, i := InsertEntry(at, canAlloc, indexOk, junk);
      if !inserted { return false, 0; }
      ok, id := Acquire(i, n, pool, data);
    }

    /** Gets a block for the entry, or gives the entry back. */
    method Acquire(i: nat, ghost n: nat, pool: Option<nat>, data: seq<Option<T>>) returns (ok: bool, id: nat)
      requires IndexPart(Some(i)) && Taken(n, i) && StorePart() && |data| == 32
      requires (pool.Some? ==> pool.value !in blocks)
      requires CountersOk(tailIndex, headIndex, |elems|, head, done) && UseOk(homes, done, |elems|, head, n, limit)
      requires WithinLimit(limit, 32 * n + 32 - head) && ClaimPart()
      modifies this`blocks, this`entries, this`headers, this`homes, this`v
      ensures Ready() && ok == pool.Some? && LastCapacity() == old(LastCapacity())
      ensures if ok
        then pool == Some(id) && v.next == n + 1 && homes == old(homes)[n := id]
          && blocks == old(blocks)[id := Block(0, None, data)]
        else v.next == n && homes == old(homes) && blocks == old(blocks)
    {
      UseStarted(homes, done, |elems|, head, n, limit, 0);
      if pool == None {
        Undo(i, n);
        return false, 0;
      }
      AddBlock(i, pool.value, n, data);
      return true, pool.value;
    }

    /** Gives the entry that was taken for block number n back. */
    method Undo(i: nat, ghost n: nat)
      requires IndexPart(Some(i)) && Taken(n, i) && n !in homes
      modifies this`entries, this`headers, this`homes, this`v
      ensures IndexPart(None) && v.next == n && homes == old(homes) && LastCapacity() == old(LastCapacity())
    {
      Rewind(Some(i));
      SetValue(i, None, n, Some(i), homes);
    }

    method AddBlock(i: nat, id: nat, ghost n: nat, data: seq<Option<T>>)
      requires IndexPart(Some(i)) && Taken(n, i) && StorePart() && id !in blocks && |data| == 32
      requires CountersOk(tailIndex, headIndex, |elems|, head, done) && UseOk(homes, done, |elems|, head, n, limit)
      requires WithinLimit(limit, 32 * n + 32 - head) && ClaimPart()
      modifies this`blocks, this`entries, this`homes
      ensures Ready() && homes == old(homes)[n := id] && blocks == old(blocks)[id := Block(0, None, data)]
    {
      UseStarted(homes, done, |elems|, head, n, limit, id);
      assert n !in homes;
      StoreNewBlock(blocks, homes, elems, done, n, id, Block(0, None, data));
      ghost var homes' := homes[n := id];
      blocks := blocks[id := Block(0, None, data)];
      SetValue(i, Some(id), n, Some(i), homes');
    }

    /** Constructs the element in the tail block. */
    method Construct(x: T, b: nat, i: nat)
      requires StorePart() && |elems| / 32 in homes && b == homes[|elems| / 32] && i == |elems| % 32
      requires forall y :: y in done ==> y < |elems|
      modifies this`blocks, this`elems
      ensures StorePart() && elems == old(elems) + [x]
    {
      assert BlockAt(blocks, homes, elems, done, |elems| / 32);
      var b' := blocks[b].(data := blocks[b].data[i := Some(x)]);
      StoreElement(blocks, homes, elems, done, x, b');
      blocks := blocks[b := b'];
      elems := elems + [x];
    }

    /** Constructs the element and moves the tail. */
    method Put(x: T)
      requires Ready() && |elems| < 32 * v.next <= |elems| + 32
      requires v.next - 1 in homes && tailBlock == Some(homes[v.next - 1])
      modifies this`blocks, this`tailIndex, this`elems
      ensures Valid() && elems == old(elems) + [x]
    {
      WrapBlock(|elems|);
      WrapAdd(|elems|, 1);
      assert |elems| / 32 == v.next - 1;
      Construct(x, tailBlock.value, tailIndex % 32);
      tailIndex := D.Wrap(tailIndex + 1);
    }

    /** Starts a block at the tail. */
    method BeginBlock(canAlloc: bool, indexOk: bool, pool: Option<nat>, data: seq<Option<T>>, junk: Option<nat>)
      returns (ok: bool)
      requires Valid() && |elems| % 32 == 0 && |data| == 32 && (pool.Some? ==> pool.value !in blocks)
      requires canAlloc && indexOk ==> 2 * LastCapacity() <= MAX_ENTRIES
      modifies this`blocks, this`tailBlock, this`entries, this`headers, this`nextBlockIndexCapacity, this`homes, this`v
      ensures Ready() && 32 * v.next == |elems| + if ok then 32 else 0
      ensures !ok ==> Valid()
      ensures ok ==> v.next - 1 in homes && tailBlock == Some(homes[v.next - 1])
      ensures ok <==> old(CanStart(canAlloc && indexOk, pool.Some?))
    {
      BaseIsWrap(v.next);
      var id: nat;
      ok, id := StartOne(tailIndex, canAlloc, indexOk, pool, data, junk);
      if ok { tailBlock := Some(id); }
    }

    method AtBoundary() returns (b: bool)
      requires CounterPart()
      ensures b <==> |elems| % 32 == 0
    {
      WrapBlock(|elems|);
      b := tailIndex % 32 == 0;
    }

    /** Appends one element, or fails and leaves the queue as it was. */
    method Enqueue(x: T, canAlloc: bool, indexOk: bool, pool: Option<nat>, data: seq<Option<T>>, junk: Option<nat>)
      returns (ok: bool)
      requires Valid() && |data| == 32 && (pool.Some? ==> pool.value !in blocks)
      requires canAlloc && indexOk ==> 2 * LastCapacity() <= MAX_ENTRIES
      modifies this`blocks, this`tailBlock, this`entries, this`headers, this`nextBlockIndexCapacity, this`homes, this`v,
        this`tailIndex, this`elems
      ensures Valid() && elems == if ok then old(elems) + [x] else old(elems)
      ensures ok <==> old(|elems| % 32 != 0 || CanStart(canAlloc && indexOk, pool.Some?))
    {
      var boundary := AtBoundary();
      if boundary {
        ok := EnqueueFirst(x, canAlloc, indexOk, pool, data, junk);
      } else {
        assert |elems| < 32 * v.next;
        Put(x);
        return true;
      }
    }

    /** Enqueues the first element of a block. */
    method EnqueueFirst(x: T, canAlloc: bool, indexOk: bool, pool: Option<nat>, data: seq<Option<T>>, junk: Option<nat>)
      returns (ok: bool)
      requires Valid() && |elems| % 32 == 0 && |data| == 32 && (pool.Some? ==> pool.value !in blocks)
      requires canAlloc && indexOk ==> 2 * LastCapacity() <= MAX_ENTRIES
      modifies this`blocks, this`tailBlock, this`entries, this`headers, this`nextBlockIndexCapacity, this`homes, this`v,
        this`tailIndex, this`elems
      ensures Valid() && elems == if ok then old(elems) + [x] else old(elems)
      ensures ok <==> old(CanStart(canAlloc && indexOk, pool.Some?))
    {
      ok := BeginBlock(canAlloc, indexOk, pool, data, junk);
      if ok { Put(x); }
    }

    /** A consumer whose dequeue was granted takes the next index. */
    method Claim() returns (index: nat, ghost x: nat)
      requires Valid() && head < |elems|
      modifies this`headIndex, this`head
      ensures Valid() && x == old(head) && head == x + 1 && index == D.Wrap(x)
      ensures x !in done && x !in readers && Contents() == old(Contents())[1..]
    {
      WrapAdd(head, 1);
      index, x := headIndex, head;
      headIndex, head := D.Wrap(headIndex + 1), head + 1;
    }

    /** The block of a live element is in use. */
    lemma LiveBlock(x: nat)
      requires CounterPart() && x < |elems| && x !in done
      ensures x / 32 in homes && x / 32 < v.next
    {
      assert !DrainedBlock(done, x / 32);
    }

    /** It loads blockIndex. */
    method LoadIndex(ghost x: nat) returns (h: nat)
      requires IndexPart(None) && CounterPart() && ClaimPart() && x < head && x !in done
      modifies this`readers
      ensures IndexPart(None) && ClaimPart() && readers == old(readers)[x := Indexed(h)]
    {
      LiveBlock(x);
      h := |headers| - 1;
      assert NumberAt(headers[h], v.marks[h], v.nums, x / 32, Some(x / 32));
      OneReader(readers, headers, v, homes, x, Indexed(h));
      readers := readers[x := Indexed(h)];
    }

    /** It loads the tail of the index it has, which may have been replaced by now. */
    method LoadTail(ghost x: nat, h: nat) returns (slot: nat)
      requires IndexPart(None) && ClaimPart() && x in readers && readers[x] == Indexed(h) && x / 32 < v.next
      modifies this`readers
      ensures IndexPart(None) && ClaimPart() && readers == old(readers)[x := Tailed(h, slot)]
    {
      hide HeadersOk, EntriesBut, NumberAt, CurrentOk;
      slot := headers[h].tail;
      TailLoaded(headers, v, x, h);
      OneReader(readers, headers, v, homes, x, Tailed(h, slot));
      readers := readers[x := Tailed(h, slot)];
    }

    /** It loads the key in that slot, which is never invalid. */
    method LoadKey(ghost x: nat, h: nat, slot: nat) returns (key: nat, ghost m: nat)
      requires IndexPart(None) && ClaimPart() && x in readers && readers[x] == Tailed(h, slot)
      modifies this`readers
      ensures IndexPart(None) && ClaimPart() && readers == old(readers)[x := Keyed(h, slot, key, m)]
      ensures key != INVALID_BLOCK_BASE
    {
      hide HeadersOk, EntriesBut, NumberAt, CurrentOk;
      m := KeyLoaded(entries, headers, v, homes, None, x, h, slot);
      key := entries[headers[h].index[slot]].key;
      OneReader(readers, headers, v, homes, x, Keyed(h, slot, key, m));
      readers := readers[x := Keyed(h, slot, key, m)];
    }

    /** It computes the slot of its block's entry. Whatever the producer has done since the loads, the entry has
        the key of the consumer's block, and that block is its value. */
    method Locate(index: nat, ghost x: nat, h: nat, slot: nat, key: nat, ghost m: nat) returns (e: nat)
      requires IndexPart(None) && x in readers && readers[x] == Keyed(h, slot, key, m) && index == D.Wrap(x)
      ensures e < |entries| == |v.nums| && x / 32 in homes && v.nums[e] == Some(x / 32)
      ensures entries[e].key == Base(x / 32) && entries[e].value == Some(homes[x / 32])
    {
      WrapBlock(x);
      ghost var r := readers[x];
      assert HeaderOk(headers[h], v.marks[h], v.nums);
      LookupReaches(headers[h], v.marks[h], x, slot, key, m);
      var i := LookupIn(headers[h], slot, key, index - index % 32);
      LookupFinds(entries, headers, v, homes, None, x, r, i);
      e := headers[h].index[i];
    }

    /** It moves out the element that was enqueued at its index. The consumer that empties the block takes it out
        of the index and gives it back to the pool. */
    method Take(index: nat, ghost x: nat, h: nat, slot: nat, key: nat, ghost m: nat) returns (t: T)
      requires Ready() && x in readers && readers[x] == Keyed(h, slot, key, m) && index == D.Wrap(x)
      modifies this`blocks, this`entries, this`homes, this`done, this`readers
      ensures Ready() && t == elems[x] && done == old(done) + {x} && readers == old(readers) - {x}
    {
      var e := Locate(index, x, h, slot, key, m);
      var b := entries[e].value.value;
      WrapBlock(x);
      var full: bool;
      t, full := MoveOut(b, index % 32, x);
      Finish(e, b, full, x);
    }

    /** Moves element x out of slot i of its block and counts it. */
    method MoveOut(b: nat, i: nat, ghost x: nat) returns (t: T, full: bool)
      requires StorePart() && x < |elems| && x !in done && x / 32 in homes && b == homes[x / 32] && i == x % 32
      modifies this`blocks
      ensures t == elems[x] && StoreOk(blocks, homes, elems, done + {x})
      ensures full <==> DrainedBlock(done + {x}, x / 32)
    {
      assert BlockAt(blocks, homes, elems, done, x / 32) && SlotHolds(blocks[b], elems, done, x / 32, i);
      t := blocks[b].data[i].value;
      full := blocks[b].count == 31;
      DoneInMore(done, x / 32, 32, x);
      DoneInFull(done + {x}, x / 32, 32);
      var b' := blocks[b].(data := blocks[b].data[i := None], count := blocks[b].count + 1);
      StoreTaken(blocks, homes, elems, done, x, b');
      blocks := blocks[b := b'];
    }

    method Finish(e: nat, b: nat, full: bool, ghost x: nat)
      requires IndexPart(None) && CounterPart() && ClaimPart() && StoreOk(blocks, homes, elems, done + {x})
      requires x < head && x / 32 in homes && b == homes[x / 32] && (full <==> DrainedBlock(done + {x}, x / 32))
      requires e < |v.nums| && v.nums[e] == Some(x / 32)
      modifies this`blocks, this`entries, this`homes, this`done, this`readers
      ensures Ready() && done == old(done) + {x} && readers == old(readers) - {x}
    {
      ghost var homes' := if full then homes - {x / 32} else homes;
      UseTaken(homes, homes', done, |elems|, head, v.next, limit, x);
      Retire(x);
      if full { Release(e, b, x); }
    }

    /** Takes the block of element x out of the index and gives it back. */
    method Release(e: nat, b: nat, ghost x: nat)
      requires IndexPart(None) && ClaimPart() && StorePart() && DrainedBlock(done, x / 32)
      requires x / 32 in homes && b == homes[x / 32] && e < |v.nums| && v.nums[e] == Some(x / 32)
      modifies this`blocks, this`entries, this`homes
      ensures IndexPart(None) && StorePart() && homes == old(homes) - {x / 32}
    {
      ghost var homes' := homes - {x / 32};
      StoreFreed(blocks, homes, homes', elems, done, x / 32);
      OthersInUse(x);
      SetValue(e, None, x / 32, None, homes');
      blocks := blocks - {b};
    }

    ghost method Retire(x: nat)
      requires IndexPart(None) && ClaimPart()
      modifies this`done, this`readers
      ensures IndexPart(None) && ClaimPart() && done == old(done) + {x} && readers == old(readers) - {x}
    {
      FewerReaders(readers, headers, v, homes, x);
      done, readers := done + {x}, readers - {x};
    }

    /** No other consumer is reading on behalf of a drained block. */
    lemma OthersInUse(x: nat)
      requires IndexPart(None) && ClaimPart() && DrainedBlock(done, x / 32)
      ensures forall y :: y in readers ==> y / 32 in homes - {x / 32}
    {}

    /** Every element that has not been taken is in its own slot of the block in use for it. */
    lemma LiveElementInPlace(x: nat)
      requires Ready() && x < |elems| && x !in done
      ensures x / 32 in homes && homes[x / 32] in blocks
      ensures |blocks[homes[x / 32]].data| == 32 && blocks[homes[x / 32]].data[x % 32] == Some(elems[x])
    {
      LiveBlock(x);
      assert BlockAt(blocks, homes, elems, done, x / 32);
      assert SlotHolds(blocks[homes[x / 32]], elems, done, x / 32, x % 32);
    }

    /** The queue never holds more than the size limit, and spans less than half the index range. */
    lemma SizeLimit()
      requires Ready()
      ensures |elems| - head < HALF64 && (limit.Some? ==> |elems| - head <= limit.value)
    {}

    /** get_block_index_entry_for_index, as the producer itself uses it. */
    method FindEntry(base: nat, ghost n: nat) returns (e: nat)
      requires IndexPart(None) && base == Base(n) && v.marks[|headers| - 1].origin < v.next
      requires NumberAt(headers[|headers| - 1], v.marks[|headers| - 1], v.nums, n, Some(n))
      ensures e < |v.nums| && v.nums[e] == Some(n)
    {
      ghost var c := |headers| - 1;
      TailUsed(headers, v);
      ghost var m := KeyLoaded(entries, headers, v, homes, None, 32 * n, c, headers[c].tail);
      assert HeaderOk(headers[c], v.marks[c], v.nums);
      var h := headers[|headers| - 1];
      var key := entries[h.index[h.tail]].key;
      LookupReaches(h, v.marks[c], 32 * n, h.tail, key, m);
      var i := LookupIn(h, h.tail, key, base);
      LookupFinds(entries, headers, v, homes, None, 32 * n, Keyed(c, h.tail, key, m), i);
      e := h.index[i];
    }

    /** The producer's part of the invariant while it rolls a bulk enqueue back: blocks ids[i..] are still in the
        index, at numbers that may be ahead of the rewound tail. */
    ghost predicate Rolling(before: map<nat, nat>, first: nat, ids: seq<nat>, i: nat)
      reads this`entries, this`headers, this`nextBlockIndexCapacity, this`v, this`homes, this`readers, this`blocks,
        this`elems, this`done
    {
      && IndexPart(None) && StorePart() && i <= |ids| && HomesFrom(homes, before, first, ids, i)
      && v.next == first + |ids| - i && v.marks[|headers| - 1].origin <= first
      && v.top <= first + headers[|headers| - 1].capacity
      && (forall n :: n in before ==> n < first) && (forall x :: x in readers ==> x / 32 < first)
    }

    /** Takes the blocks of a failed bulk enqueue out of the index again, first to last, while the tail is rewound
        from the last to the first. */
    method Unroll(chain: Option<nat>, base: nat, ghost before: map<nat, nat>, ghost first: nat, ghost ids: seq<nat>)
      requires Rolling(before, first, ids, 0) && Chain(blocks, ids) && base == Base(first)
      requires chain == if ids == [] then None else Some(ids[0])
      modifies this`entries, this`headers, this`v, this`homes
      ensures Rolling(before, first, ids, |ids|) && LastCapacity() == old(LastCapacity())
    {
      var block, at := chain, base;
      ghost var i := 0;
      while block.Some?
        invariant Rolling(before, first, ids, i) && at == Base(first + i)
        invariant block == if i < |ids| then Some(ids[i]) else None
        invariant LastCapacity() == old(LastCapacity())
        decreases |ids| - i
      {
        assert LinkAt(blocks, ids, i);
        UnrollOne(at, before, first, ids, i);
        block, at := blocks[block.value].next, if at + 32 == WORD64 then 0 else at + 32;
        i := i + 1;
      }
    }

    method UnrollOne(at: nat, ghost before: map<nat, nat>, ghost first: nat, ghost ids: seq<nat>, ghost i: nat)
      requires Rolling(before, first, ids, i) && i < |ids| && at == Base(first + i)
      modifies this`entries, this`headers, this`v, this`homes
      ensures Rolling(before, first, ids, i + 1) && LastCapacity() == old(LastCapacity())
    {
      Unlink(at, before, first, ids, i);
      Rewind(None);
    }

    method Unlink(at: nat, ghost before: map<nat, nat>, ghost first: nat, ghost ids: seq<nat>, ghost i: nat)
      requires Rolling(before, first, ids, i) && i < |ids| && at == Base(first + i)
      modifies this`entries, this`homes
      ensures IndexPart(None) && StorePart() && HomesFrom(homes, before, first, ids, i + 1)
    {
      ghost var n := first + i;
      HomesLess(homes, before, first, ids, i);
      StoreFewer(blocks, homes, elems, done, n);
      var e := FindEntry(at, n);
      SetValue(e, None, n, None, homes - {n});
    }

    /** add_blocks_to_free_list */
    method FreeChain(chain: Option<nat>, ghost ids: seq<nat>)
      requires StorePart() && Chain(blocks, ids) && chain == (if ids == [] then None else Some(ids[0]))
      requires forall n, i :: n in homes && 0 <= i < |ids| ==> homes[n] != ids[i]
      modifies this`blocks
      ensures StorePart()
    {
      var block := chain;
      ghost var i := 0;
      while block.Some?
        invariant 0 <= i <= |ids| && StorePart() && block == if i < |ids| then Some(ids[i]) else None
        invariant forall j :: i <= j < |ids| ==> LinkAt(blocks, ids, j)
        decreases |ids| - i
      {
        assert LinkAt(blocks, ids, i);
        var next := blocks[block.value].next;
        StoreWithout(blocks, homes, elems, done, block.value);
        ghost var was := blocks;
        blocks := blocks - {block.value};
        forall j | i < j < |ids| ensures LinkAt(blocks, ids, j) { assert LinkAt(was, ids, j); }
        block, i := next, i + 1;
      }
    }

    /** Starts the next block of a bulk enqueue and chains it. */
    method ReserveOne(
      at: nat, canAlloc: bool, indexOk: bool, pool: Option<nat>, data: seq<Option<T>>, junk: Option<nat>, chained: bool,
      ghost r: Reserved)
      returns (ok: bool, id: nat)
      requires Ready() && Reserving(blocks, homes, tailBlock, r) && v.next == r.first + |r.ids| && at == Base(v.next)
      requires (pool.Some? ==> pool.value !in blocks) && (chained <==> r.partial || r.ids != []) && |data| == 32
      requires canAlloc && indexOk ==> 2 * LastCapacity() <= MAX_ENTRIES
      modifies this`blocks, this`tailBlock, this`entries, this`headers, this`nextBlockIndexCapacity, this`homes, this`v
      ensures Ready() && (ok <==> old(CanStart(canAlloc && indexOk, pool.Some?)))
      ensures LastCapacity() >= old(LastCapacity())
      ensures if ok
        then pool == Some(id) && v.next == old(v.next) + 1 && Reserving(blocks, homes, tailBlock, Grown(r, id))
          && blocks.Keys == old(blocks.Keys) + {id}
        else v.next == old(v.next) && Reserving(blocks, homes, tailBlock, r) && blocks.Keys == old(blocks.Keys)
    {
      ghost var was, wasHomes := blocks, homes;
      ok, id := StartOne(at, canAlloc, indexOk, pool, data, junk);
      if ok { Attach(id, data, chained, was, wasHomes, r); }
    }

    /** Makes the new block the tail, chained to the one before it. */
    method Attach(
      id: nat, ghost data: seq<Option<T>>, chained: bool, ghost was: map<nat, Block<T>>, ghost wasHomes: map<nat, nat>,
      ghost r: Reserved)
      requires StorePart() && Reserving(was, wasHomes, tailBlock, r) && id !in was
      requires blocks == was[id := Block(0, None, data)] && homes == wasHomes[r.first + |r.ids| := id]
      requires chained <==> r.partial || r.ids != []
      modifies this`blocks, this`tailBlock
      ensures StorePart() && Reserving(blocks, homes, tailBlock, Grown(r, id)) && blocks.Keys == was.Keys + {id}
    {
      ReserveMore(was, wasHomes, tailBlock, r, id, Block(0, None, data), chained);
      if chained { Link(tailBlock.value, id); }
      tailBlock := Some(id);
    }

    method Link(b: nat, id: nat)
      requires StorePart() && b in blocks
      modifies this`blocks
      ensures StorePart() && blocks == WithNext(old(blocks), b, Some(id))
    {
      StoreNext(blocks, homes, elems, done, b, Some(id));
      blocks := WithNext(blocks, b, Some(id));
    }

    /** Gives everything back that a bulk enqueue has reserved: the queue is as it was before. */
    method Rollback(chain: Option<nat>, base: nat, start: Option<nat>, ghost r: Reserved)
      requires IndexPart(None) && StorePart() && ClaimPart() && CountersOk(tailIndex, headIndex, |elems|, head, done)
      requires Reserving(blocks, homes, tailBlock, r) && v.next == r.first + |r.ids| && base == Base(r.first)
      requires UseOk(r.before, done, |elems|, head, r.first, limit) && 32 * r.first < |elems| + 32
      requires chain == (if r.ids == [] then None else Some(r.ids[0])) && start == r.start
      requires r.partial <==> |elems| % 32 != 0
      modifies this`blocks, this`tailBlock, this`entries, this`headers, this`homes, this`v
      ensures Valid() && homes == r.before && v.next == r.first && tailBlock == start
      ensures LastCapacity() == old(LastCapacity())
    {
      StartRolling(r);
      Unroll(chain, base, r.before, r.first, r.ids);
      Restore(chain, start, r);
    }

    method Restore(chain: Option<nat>, start: Option<nat>, ghost r: Reserved)
      requires Rolling(r.before, r.first, r.ids, |r.ids|) && Chain(blocks, r.ids)
      requires ClaimPart() && CountersOk(tailIndex, headIndex, |elems|, head, done)
      requires UseOk(r.before, done, |elems|, head, r.first, limit) && 32 * r.first < |elems| + 32
      requires forall n, i :: n in r.before && 0 <= i < |r.ids| ==> r.before[n] != r.ids[i]
      requires chain == (if r.ids == [] then None else Some(r.ids[0])) && start == r.start
      requires |elems| % 32 != 0 ==> r.first > 0 && r.first - 1 in r.before && start == Some(r.before[r.first - 1])
      modifies this`blocks, this`tailBlock
      ensures Valid() && homes == r.before && v.next == r.first && tailBlock == start
    {
      SameHomes(homes, r.before, r.first, r.ids);
      FreeChain(chain, r.ids);
      tailBlock := start;
    }

    lemma StartRolling(r: Reserved)
      requires IndexPart(None) && StorePart() && ClaimPart() && CountersOk(tailIndex, headIndex, |elems|, head, done)
      requires Reserving(blocks, homes, tailBlock, r) && v.next == r.first + |r.ids|
      requires UseOk(r.before, done, |elems|, head, r.first, limit)
      ensures Rolling(r.before, r.first, r.ids, 0)
      ensures forall n, i :: n in r.before && 0 <= i < |r.ids| ==> r.before[n] != r.ids[i]
    {
      ReservedApart(blocks, homes, elems, done, tailBlock, r);
      if r.ids != [] { RewindRoom(headers, v, homes, r.first); }
    }

    /** Why a bulk enqueue could not start block number n. */
    ghost predicate Refused(n: nat, index: bool, pool: Option<nat>)
      reads this`headers, this`head
    {
      || !WithinLimit(limit, 32 * n + 32 - head) || pool == None || !index
      || 2 * LastCapacity() > MAX_ENTRIES
    }

    /** Starts `need` blocks, or as many as can be started. */
    method ReserveAll(
      diff0: nat, at0: nat, canAlloc: bool, indexOk: seq<bool>, pools: seq<Option<nat>>, data: seq<Option<T>>,
      junk: Option<nat>, partial: bool, ghost need: nat, ghost r0: Reserved)
      returns (ok: bool, chain: Option<nat>, ghost r: Reserved)
      requires Ready() && Reserving(blocks, homes, tailBlock, r0) && r0.first == v.next && r0.ids == []
      requires diff0 == 32 * need && D.Wrap(at0 + 32) == Base(v.next) && |data| == 32
      requires |indexOk| == need == |pools| && partial == r0.partial
      requires forall j :: 0 <= j < need && pools[j].Some? ==> pools[j].value !in blocks
      requires forall i, j :: 0 <= i < j < need && pools[i].Some? ==> pools[i] != pools[j]
      modifies this`blocks, this`tailBlock, this`entries, this`headers, this`nextBlockIndexCapacity, this`homes, this`v
      ensures Ready() && Reserving(blocks, homes, tailBlock, r) && v.next == r.first + |r.ids| && |r.ids| <= need
      ensures r == r0.(ids := r.ids)
      ensures chain == (if r.ids == [] then None else Some(r.ids[0])) && (ok <==> |r.ids| == need)
      ensures !ok ==> Refused(v.next, canAlloc && indexOk[|r.ids|], pools[|r.ids|])
    {
      r, ok, chain := r0, true, None;
      var diff, at, k := diff0, at0, 0;
      while diff > 0
        invariant Ready() && Reserving(blocks, homes, tailBlock, r) && |r.ids| == k <= need && v.next == r.first + k
        invariant r == r0.(ids := r.ids)
        invariant ok && diff == 32 * (need - k) && D.Wrap(at + 32) == Base(r.first + k)
        invariant chain == if k == 0 then None else Some(r.ids[0])
        invariant forall j :: k <= j < need && pools[j].Some? ==> pools[j].value !in blocks
      {
        diff, at := diff - 32, D.Wrap(at + 32);
        var id: nat;
        ok, id := ReserveNext(at, canAlloc && indexOk[k], pools[k], data, junk, partial || chain.Some?, r);
        if !ok { break; }
        NextBase(r.first + k);
        chain := if chain == None then Some(id) else chain;
        r, k := Grown(r, id), k + 1;
      }
    }

    /** ReserveOne, where an index too large to be allocated cannot be allocated. */
    method ReserveNext(
      at: nat, index: bool, pool: Option<nat>, data: seq<Option<T>>, junk: Option<nat>, chained: bool,
      ghost r: Reserved)
      returns (ok: bool, id: nat)
      requires Ready() && Reserving(blocks, homes, tailBlock, r) && v.next == r.first + |r.ids| && at == Base(v.next)
      requires (pool.Some? ==> pool.value !in blocks) && (chained <==> r.partial || r.ids != []) && |data| == 32
      modifies this`blocks, this`tailBlock, this`entries, this`headers, this`nextBlockIndexCapacity, this`homes, this`v
      ensures Ready() && (!ok ==> Refused(v.next, index, pool))
      ensures if ok
        then pool == Some(id) && v.next == old(v.next) + 1 && Reserving(blocks, homes, tailBlock, Grown(r, id))
          && blocks.Keys == old(blocks.Keys) + {id}
        else v.next == old(v.next) && Reserving(blocks, homes, tailBlock, r) && blocks.Keys == old(blocks.Keys)
    {
      var fits := 2 * LastCapacity() <= MAX_ENTRIES;
      ok, id := ReserveOne(at, index, fits, pool, data, junk, chained, r);
    }

    /** Reserves `need` blocks, or none. */
    method Reserve(
      diff0: nat, at0: nat, canAlloc: bool, indexOk: seq<bool>, pools: seq<Option<nat>>, data: seq<Option<T>>,
      junk: Option<nat>, ghost need: nat) returns (ok: bool, chain: Option<nat>, ghost r: Reserved)
      requires Valid() && diff0 == 32 * need && D.Wrap(at0 + 32) == Base(v.next) && |data| == 32
      requires |indexOk| == need == |pools| && forall j :: 0 <= j < need && pools[j].Some? ==> pools[j].value !in blocks
      requires forall i, j :: 0 <= i < j < need && pools[i].Some? ==> pools[i] != pools[j]
      modifies this`blocks, this`tailBlock, this`entries, this`headers, this`nextBlockIndexCapacity, this`homes, this`v
      ensures |r.ids| <= need && r == Reserved(old(homes), old(v.next), r.ids, old(tailBlock), |elems| % 32 != 0)
      ensures ok ==> Ready() && Reserving(blocks, homes, tailBlock, r) && v.next == r.first + need
      ensures ok ==> |r.ids| == need && chain == if need == 0 then None else Some(r.ids[0])
      ensures !ok ==> Valid() && homes == old(homes) && v.next == old(v.next) && tailBlock == old(tailBlock)
      ensures !ok ==> |r.ids| < need && Refused(v.next + |r.ids|, canAlloc && indexOk[|r.ids|], pools[|r.ids|])
    {
      var startBlock := tailBlock;
      var boundary := AtBoundary();
      assert UseOk(homes, done, |elems|, head, v.next, limit) && 32 * v.next < |elems| + 32;
      ghost var r0 := Reserved(homes, v.next, [], tailBlock, !boundary);
      NoneReserved(r0);
      ok, chain, r := ReserveAll(diff0, at0, canAlloc, indexOk, pools, data, junk, !boundary, need, r0);
      if !ok { Rollback(chain, D.Wrap(at0 + 32), startBlock, r); }
    }

    lemma NoneReserved(r: Reserved)
      requires Valid() && r == Reserved(homes, v.next, [], tailBlock, |elems| % 32 != 0)
      ensures Reserving(blocks, homes, tailBlock, r)
    {
      if r.partial { assert BlockAt(blocks, homes, elems, done, v.next - 1); }
    }

    /** Constructs items[k0..k1] in the tail block. */
    method FillBlock(items: seq<T>, at: nat, stop: nat, k0: nat, ghost k1: nat) returns (k: nat)
      requires StorePart() && Filled(blocks, homes, items, |elems|, k0) && k0 <= k1 <= |items|
      requires at == D.Wrap(|elems| + k0) && stop == D.Wrap(|elems| + k1)
      requires k0 < k1 ==> (|elems| + k0) / 32 in homes && tailBlock == Some(homes[(|elems| + k0) / 32])
      requires |elems| + k1 <= 32 * ((|elems| + k0) / 32) + 32
      modifies this`blocks
      ensures StorePart() && Filled(blocks, homes, items, |elems|, k1) && k == k1 && SameNext(old(blocks), blocks)
    {
      var cur := at;
      k := k0;
      while cur != stop
        invariant k0 <= k <= k1 && cur == D.Wrap(|elems| + k) && SameNext(old(blocks), blocks)
        invariant StorePart() && Filled(blocks, homes, items, |elems|, k)
        decreases k1 - k
      {
        assert (|elems| + k) / 32 == (|elems| + k0) / 32;
        FillSlot(items, cur % 32, k, cur);
        WrapAdd(|elems| + k, 1);
        cur, k := D.Wrap(cur + 1), k + 1;
      }
      if k < k1 { WrapDiffers(|elems| + k, |elems| + k1); }
    }

    method FillSlot(items: seq<T>, i: nat, k: nat, ghost cur: nat)
      requires StorePart() && Filled(blocks, homes, items, |elems|, k) && k < |items|
      requires cur == D.Wrap(|elems| + k) && i == cur % 32
      requires (|elems| + k) / 32 in homes && tailBlock == Some(homes[(|elems| + k) / 32])
      modifies this`blocks
      ensures StorePart() && Filled(blocks, homes, items, |elems|, k + 1) && SameNext(old(blocks), blocks)
    {
      WrapBlock(|elems| + k);
      assert BlockAt(blocks, homes, elems, done, (|elems| + k) / 32);
      var b := blocks[tailBlock.value];
      var b' := b.(data := b.data[i := Some(items[k])]);
      FillOne(blocks, homes, elems, done, items, k, b');
      blocks := blocks[tailBlock.value := b'];
    }

    /** Constructs all items, one block after the other along the chain. */
    method Fill(items: seq<T>, end: Option<nat>, ghost last: int)
      requires StorePart() && tailIndex == D.Wrap(|elems|) && |items| < HALF64
      requires items == [] ==> end == tailBlock
      requires items != [] ==>
        && 0 <= last == (|elems| + |items| - 1) / 32 && last in homes && end == Some(homes[last])
        && |elems| / 32 in homes && tailBlock == Some(homes[|elems| / 32]) && Road(blocks, homes, |elems| / 32, last)
      modifies this`blocks, this`tailBlock
      ensures StorePart() && Filled(blocks, homes, items, |elems|, |items|) && tailBlock == end
    {
      var newTail := D.Wrap(tailIndex + |items|);
      WrapAdd(|elems|, |items|);
      var cur, k := tailIndex, 0;
      ghost var n := |elems| / 32;
      while true
        invariant k <= |items| && (items != [] ==> k < |items|) && cur == D.Wrap(|elems| + k) && n == (|elems| + k) / 32
        invariant StorePart() && Filled(blocks, homes, items, |elems|, k)
        invariant items == [] ==> end == tailBlock
        invariant items != [] ==>
          n <= last && n in homes && tailBlock == Some(homes[n]) && Road(blocks, homes, n, last)
        decreases if items == [] then 0 else last - n
      {
        StopMeans(|elems| + k, |elems| + |items|);
        var stop := StopIndex(cur, newTail);
        ghost var was := blocks;
        ghost var k1 := if |elems| + |items| < 32 * n + 32 then |items| else 32 * n + 32 - |elems|;
        k := FillBlock(items, cur, stop, k, k1);
        cur := stop;
        if tailBlock == end { break; }
        RoadKept(was, blocks, homes, n, last);
        assert RoadAt(blocks, homes, n);
        tailBlock := blocks[tailBlock.value].next;
        n := n + 1;
      }
    }

    /** Appends all items, or fails and leaves the queue as it was: the blocks and the index entries it had
        reserved are given back. It fails only if one of the blocks it needs is refused. */
    method EnqueueBulk(
      items: seq<T>, canAlloc: bool, indexOk: seq<bool>, pools: seq<Option<nat>>, data: seq<Option<T>>,
      junk: Option<nat>)
      returns (ok: bool, ghost refused: nat)
      requires Valid() && |items| < HALF64 && |data| == 32
      requires |indexOk| == |pools| == Blocks(|elems| + |items|) - Blocks(|elems|)
      requires forall j :: 0 <= j < |pools| && pools[j].Some? ==> pools[j].value !in blocks
      requires forall i, j :: 0 <= i < j < |pools| && pools[i].Some? ==> pools[i] != pools[j]
      modifies this`blocks, this`tailBlock, this`entries, this`headers, this`nextBlockIndexCapacity, this`homes, this`v,
        this`tailIndex, this`elems
      ensures Valid() && elems == if ok then old(elems) + items else old(elems)
      ensures !ok ==> homes == old(homes) && tailBlock == old(tailBlock)
      ensures ok || refused < |pools|
      ensures ok || Refused(Blocks(|elems|) + refused, canAlloc && indexOk[refused], pools[refused])
    {
      var startBlock := tailBlock;
      var boundary := AtBoundary();
      var at := BlockStart(D.Wrap(tailIndex - 1));
      var diff := D.Wrap(BlockStart(D.Wrap(tailIndex + |items| - 1)) - at);
      BulkWords(|items|);
      ghost var need := |pools|;
      var chain: Option<nat>;
      ghost var r: Reserved;
      ok, chain, r := Reserve(diff, at, canAlloc, indexOk, pools, data, junk, need);
      refused := |r.ids|;
      if ok { Complete(items, chain, startBlock, boundary, r); }
    }

    lemma BulkWords(count: nat)
      requires Valid() && count < HALF64
      ensures Blocks(|elems|) == v.next <= Blocks(|elems| + count)
      ensures var at := BlockStart(D.Wrap(tailIndex - 1));
        && D.Wrap(at + 32) == Base(v.next)
        && D.Wrap(BlockStart(D.Wrap(tailIndex + count - 1)) - at) == 32 * (Blocks(|elems| + count) - v.next)
    {
      WrapAdd(|elems|, -1);
      WrapAdd(|elems|, count - 1);
      BlocksNeeded(|elems|, count);
    }

    /** Fills the blocks that have been reserved and moves the tail. */
    method Complete(items: seq<T>, chain: Option<nat>, startBlock: Option<nat>, boundary: bool, ghost r: Reserved)
      requires Ready() && Reserving(blocks, homes, tailBlock, r) && |items| < HALF64
      requires r.first == Blocks(|elems|) && v.next == r.first + |r.ids| == Blocks(|elems| + |items|)
      requires startBlock == r.start && boundary == !r.partial && (boundary <==> |elems| % 32 == 0)
      requires chain == if r.ids == [] then None else Some(r.ids[0])
      modifies this`blocks, this`tailBlock, this`tailIndex, this`elems
      ensures Valid() && elems == old(elems) + items
    {
      Lay(items, chain, startBlock, boundary, r);
      Commit(items);
    }

    method Lay(items: seq<T>, chain: Option<nat>, startBlock: Option<nat>, boundary: bool, ghost r: Reserved)
      requires StorePart() && Reserving(blocks, homes, tailBlock, r) && |items| < HALF64 && tailIndex == D.Wrap(|elems|)
      requires r.first == Blocks(|elems|) && r.first + |r.ids| == Blocks(|elems| + |items|)
      requires startBlock == r.start && boundary == !r.partial && (boundary <==> |elems| % 32 == 0)
      requires chain == if r.ids == [] then None else Some(r.ids[0])
      modifies this`blocks, this`tailBlock
      ensures StorePart() && Filled(blocks, homes, items, |elems|, |items|)
      ensures var next := r.first + |r.ids|;
        (|elems| + |items|) % 32 != 0 ==> next > 0 && next - 1 in homes && tailBlock == Some(homes[next - 1])
    {
      if r.partial || r.ids != [] { ReservedRoad(blocks, homes, tailBlock, r, |elems| / 32); }
      var end := tailBlock;
      tailBlock := if boundary && chain.Some? then chain else startBlock;
      Fill(items, end, r.first + |r.ids| - 1);
    }

    method Commit(items: seq<T>)
      requires IndexPart(None) && StorePart() && CounterPart() && ClaimPart()
      requires Filled(blocks, homes, items, |elems|, |items|) && v.next == Blocks(|elems| + |items|)
      requires (|elems| + |items|) % 32 != 0 ==>
          v.next > 0 && v.next - 1 in homes && tailBlock == Some(homes[v.next - 1])
      modifies this`tailIndex, this`elems
      ensures Valid() && elems == old(elems) + items
    {
      FilledAll(blocks, homes, elems, done, items);
      WrapAdd(|elems|, |items|);
      tailIndex := D.Wrap(tailIndex + |items|);
      elems := elems + items;
    }
  }
}
