/** The block index of the implicit producer in concurrentqueue.h: entries with a key and a block, addressed through a
    circular array of pointers that is rotated into one of twice the size when it is full, and rewound when an enqueue
    fails half way. Here are the steps it goes through and the consumers' lookups, on values. */
module ImplicitIndex {
  import opened Prelude
  import opened CircularIndex

  datatype Entry = Entry(key: nat, value: Option<nat>)

  datatype Header = Header(capacity: nat, tail: nat, index: seq<nat>)

  /** The number of the block that slot 0 of an index was first used for, and the capacity as a power of two. */
  datatype Mark = Mark(origin: nat, order: nat)

  /** A consumer between its claim and its dequeue: it has loaded index h, then the index's tail slot, then the
      key in that slot, which is the base of block number m. */
  datatype Reader = Indexed(h: nat) | Tailed(h: nat, slot: nat) | Keyed(h: nat, slot: nat, key: nat, m: nat)

  const INVALID_BLOCK_BASE: nat := 1

  // ----- The index. nums[e] is the number of the block that entry e was last used for. -----

  ghost predicate EntryOk(entries: seq<Entry>, nums: seq<Option<nat>>, homes: map<nat, nat>, e: nat) {
    && e < |entries| == |nums|
    && (nums[e] == None ==> entries[e].key == INVALID_BLOCK_BASE)
    && (nums[e].Some? ==> entries[e].key == Base(nums[e].value) && entries[e].value == HomeOf(homes, nums[e].value))
  }

  ghost function HomeOf(homes: map<nat, nat>, n: nat): Option<nat> {
    if n in homes then Some(homes[n]) else None
  }

  /** An entry that has been taken for the next block, and whose value is still to be stored, is exempt. */
  ghost predicate EntriesBut(entries: seq<Entry>, nums: seq<Option<nat>>, homes: map<nat, nat>, skip: Option<nat>)
  {
    && |entries| == |nums|
    && (forall e {:trigger EntryOk(entries, nums, homes, e)} :: 0 <= e < |entries| && skip != Some(e) ==>
          EntryOk(entries, nums, homes, e))
    && (skip.Some? && skip.value < |entries| ==>
          nums[skip.value].Some? && entries[skip.value].key == Base(nums[skip.value].value))
  }

  /** The entry in slot s was only ever used for blocks whose numbers belong in slot s. */
  ghost predicate SlotOk(h: Header, k: Mark, nums: seq<Option<nat>>, s: nat) {
    && s < |h.index| == h.capacity && h.index[s] < |nums|
    && (nums[h.index[s]].Some? ==>
          k.origin <= nums[h.index[s]].value && Slot(nums[h.index[s]].value - k.origin, h.capacity) == s)
  }

  ghost predicate HeaderOk(h: Header, k: Mark, nums: seq<Option<nat>>) {
    && k.order <= 58 && h.capacity == Pow2(k.order) == |h.index| && h.tail < h.capacity
    && (forall s {:trigger SlotOk(h, k, nums, s)} :: 0 <= s < h.capacity ==> SlotOk(h, k, nums, s))
    && (forall s, t :: 0 <= s < t < h.capacity ==> h.index[s] != h.index[t])
  }

  ghost predicate UsedSlot(h: Header, nums: seq<Option<nat>>, s: nat) {
    s < |h.index| && h.index[s] < |nums| && nums[h.index[s]].Some?
  }

  /** An index is only replaced when all of its entries have been used. */
  ghost predicate AllUsed(h: Header, nums: seq<Option<nat>>) {
    forall s {:trigger UsedSlot(h, nums, s)} :: 0 <= s < |h.index| ==> UsedSlot(h, nums, s)
  }

  /** The entry that belongs to block number n was last used for `num`. */
  ghost predicate NumberAt(h: Header, k: Mark, nums: seq<Option<nat>>, n: nat, num: Option<nat>) {
    && k.origin <= n && 0 < h.capacity == |h.index| && h.index[Slot(n - k.origin, h.capacity)] < |nums|
    && nums[h.index[Slot(n - k.origin, h.capacity)]] == num
  }

  /** In the current index the next block to be started is number `next`; entries have been used for numbers up
      to `top`, which is more than `next` after a rewind. */
  ghost predicate CurrentOk(h: Header, k: Mark, nums: seq<Option<nat>>, next: nat, top: nat) {
    && 0 < h.capacity && k.origin <= next <= top <= next + h.capacity
    && NextSlot(h.tail, h.capacity) == Slot(next - k.origin, h.capacity)
    && (forall n {:trigger NumberAt(h, k, nums, n, Some(n))} :: k.origin <= n < top <= n + h.capacity ==>
          NumberAt(h, k, nums, n, Some(n)))
    && (forall n {:trigger NumberAt(h, k, nums, n, None)} :: top <= n < k.origin + h.capacity ==>
          NumberAt(h, k, nums, n, None))
  }

  ghost predicate HeadersOk(headers: seq<Header>, marks: seq<Mark>, nums: seq<Option<nat>>) {
    && headers != [] && |headers| == |marks|
    && (forall h {:trigger HeaderOk(headers[h], marks[h], nums)} :: 0 <= h < |headers| ==>
          HeaderOk(headers[h], marks[h], nums) && (h < |headers| - 1 ==> AllUsed(headers[h], nums)))
    && (forall h :: 0 <= h < |headers| - 1 ==> marks[h].order < marks[|marks| - 1].order)
    && |nums| == headers[|headers| - 1].capacity
  }

  /** Every block that is in use has its entry, where the index says it is. */
  ghost predicate HomesOk(h: Header, k: Mark, nums: seq<Option<nat>>, homes: map<nat, nat>, top: nat) {
    forall n :: n in homes ==> n < top && NumberAt(h, k, nums, n, Some(n))
  }

  ghost predicate ReaderOk(r: Reader, x: nat, headers: seq<Header>, marks: seq<Mark>, nums: seq<Option<nat>>) {
    && r.h < |headers| == |marks| && NumberAt(headers[r.h], marks[r.h], nums, x / 32, Some(x / 32))
    && (r.Tailed? ==> UsedSlot(headers[r.h], nums, r.slot))
    && (r.Keyed? ==>
          && r.key == Base(r.m) && marks[r.h].origin <= r.m && 0 < headers[r.h].capacity
          && r.slot == Slot(r.m - marks[r.h].origin, headers[r.h].capacity))
  }

  // ----- Using an entry -----

  /** Slots of an index and of every later one agree on which numbers share an entry. */
  lemma SlotOfLater(n: nat, order: nat, later: nat)
    requires order <= later
    ensures Slot(n + Pow2(later), Pow2(order)) == Slot(n, Pow2(order))
  {
    var m := PowSplit(order, later);
    SlotPeriod(n, m, Pow2(order));
  }

  lemma UseKeepsHeader(h: Header, k: Mark, nums: seq<Option<nat>>, nums': seq<Option<nat>>, e: nat, n: nat, later: nat)
    requires HeaderOk(h, k, nums) && e < |nums| && k.order <= later && nums' == nums[e := Some(n)]
    requires nums[e].Some? && (n == nums[e].value || n == nums[e].value + Pow2(later))
    ensures HeaderOk(h, k, nums')
  {
    forall s {:trigger SlotOk(h, k, nums', s)} | 0 <= s < h.capacity ensures SlotOk(h, k, nums', s) {
      assert SlotOk(h, k, nums, s);
      if h.index[s] == e { SlotOfLater(nums[e].value - k.origin, k.order, later); }
    }
  }

  lemma FirstUseKeepsHeader(h: Header, k: Mark, nums: seq<Option<nat>>, nums': seq<Option<nat>>, n: nat)
    requires HeaderOk(h, k, nums) && NumberAt(h, k, nums, n, None)
    requires nums' == nums[h.index[Slot(n - k.origin, h.capacity)] := Some(n)]
    ensures HeaderOk(h, k, nums')
  {
    forall s {:trigger SlotOk(h, k, nums', s)} | 0 <= s < h.capacity ensures SlotOk(h, k, nums', s) {
      assert SlotOk(h, k, nums, s);
    }
  }

  ghost predicate Listed(h: Header, e: nat) { exists s :: 0 <= s < |h.index| && h.index[s] == e }

  /** No two entries have the same number. */
  lemma SameNumber(h: Header, k: Mark, nums: seq<Option<nat>>, e: nat, f: nat)
    requires HeaderOk(h, k, nums) && Listed(h, e) && Listed(h, f) && e < |nums| && f < |nums|
    requires nums[e].Some? && nums[e] == nums[f]
    ensures e == f
  {
    var s :| 0 <= s < |h.index| && h.index[s] == e;
    var t :| 0 <= t < |h.index| && h.index[t] == f;
    assert SlotOk(h, k, nums, s) && SlotOk(h, k, nums, t);
  }

  /** What the entry behind the tail was last used for: the same number before a rewind, nothing yet, or the
      number one capacity ago. */
  ghost function LastUse(k: Mark, capacity: nat, next: nat, top: nat): Option<nat> {
    if next < top then Some(next) else if next < k.origin + capacity then None else Some(next - capacity)
  }

  lemma NextEntry(h: Header, k: Mark, nums: seq<Option<nat>>, next: nat, top: nat)
    requires HeaderOk(h, k, nums) && CurrentOk(h, k, nums, next, top)
    ensures NumberAt(h, k, nums, next, LastUse(k, h.capacity, next, top))
  {
    if next < top {
      assert NumberAt(h, k, nums, next, Some(next));
    } else if next < k.origin + h.capacity {
      assert NumberAt(h, k, nums, next, None);
    } else {
      assert NumberAt(h, k, nums, next - h.capacity, Some(next - h.capacity));
      SlotAhead(next - h.capacity - k.origin, h.capacity, h.capacity);
      assert SlotOk(h, k, nums, Slot(next - k.origin, h.capacity));
    }
  }

  /** Other numbers within one capacity have other entries. */
  lemma OtherNumber(h: Header, k: Mark, nums: seq<Option<nat>>, nums': seq<Option<nat>>,
      e: nat, next: nat, n: nat, num: Option<nat>)
    requires HeaderOk(h, k, nums) && NumberAt(h, k, nums, n, num) && k.origin <= next && n != next
    requires n < next + h.capacity && next < n + h.capacity && e == h.index[Slot(next - k.origin, h.capacity)] < |nums|
    requires nums' == nums[e := Some(next)]
    ensures NumberAt(h, k, nums', n, num)
  {
    if n < next { SlotDistinct(n - k.origin, next - k.origin, h.capacity); }
    else { SlotDistinct(next - k.origin, n - k.origin, h.capacity); }
  }

  /** The current index after the entry behind the tail has been taken for block number `next`. */
  lemma UseCurrent(h: Header, h': Header, k: Mark, nums: seq<Option<nat>>, nums': seq<Option<nat>>, next: nat, top: nat)
    requires HeaderOk(h, k, nums) && CurrentOk(h, k, nums, next, top)
    requires h' == h.(tail := NextSlot(h.tail, h.capacity)) && h'.tail < |h.index| && h.index[h'.tail] < |nums|
    requires nums' == nums[h.index[h'.tail] := Some(next)]
    ensures CurrentOk(h', k, nums', next + 1, if next < top then top else next + 1)
  {
    var e := h.index[h'.tail];
    var top' := if next < top then top else next + 1;
    SlotNext(next - k.origin, h.capacity);
    NextEntry(h, k, nums, next, top);
    forall n {:trigger NumberAt(h', k, nums', n, Some(n))} | k.origin <= n < top' <= n + h.capacity
      ensures NumberAt(h', k, nums', n, Some(n))
    {
      if n != next {
        assert NumberAt(h, k, nums, n, Some(n));
        OtherNumber(h, k, nums, nums', e, next, n, Some(n));
      }
    }
    forall n {:trigger NumberAt(h', k, nums', n, None)} | top' <= n < k.origin + h.capacity
      ensures NumberAt(h', k, nums', n, None)
    {
      assert NumberAt(h, k, nums, n, None);
      OtherNumber(h, k, nums, nums', e, next, n, None);
    }
  }

  lemma UseHeaders(
    headers: seq<Header>, headers': seq<Header>, marks: seq<Mark>, nums: seq<Option<nat>>, nums': seq<Option<nat>>,
    next: nat, top: nat)
    requires HeadersOk(headers, marks, nums)
    requires CurrentOk(headers[|headers| - 1], marks[|headers| - 1], nums, next, top)
    requires var c := |headers| - 1; var h := headers[c];
      && headers' == headers[c := h.(tail := NextSlot(h.tail, h.capacity))]
      && NextSlot(h.tail, h.capacity) < |h.index| && h.index[NextSlot(h.tail, h.capacity)] < |nums|
      && nums' == nums[h.index[NextSlot(h.tail, h.capacity)] := Some(next)]
    ensures HeadersOk(headers', marks, nums')
  {
    var c := |headers| - 1;
    var h, k := headers[c], marks[c];
    var e := h.index[NextSlot(h.tail, h.capacity)];
    NextEntry(h, k, nums, next, top);
    forall i {:trigger HeaderOk(headers'[i], marks[i], nums')} | 0 <= i < |headers'|
      ensures HeaderOk(headers'[i], marks[i], nums') && (i < c ==> AllUsed(headers'[i], nums'))
    {
      assert HeaderOk(headers[i], marks[i], nums);
      if nums[e].Some? {
        UseKeepsHeader(headers[i], marks[i], nums, nums', e, next, k.order);
        if i < c { StillUsed(headers[i], nums, nums', e); }
      } else if i < c {
        UnusedElsewhere(headers[i], marks[i], nums, nums', e, next);
      } else {
        FirstUseKeepsHeader(h, k, nums, nums', next);
      }
      if i == c { TailFree(h, headers'[c], k, nums'); }
    }
  }

  lemma UnusedElsewhere(h: Header, k: Mark, nums: seq<Option<nat>>, nums': seq<Option<nat>>, e: nat, next: nat)
    requires HeaderOk(h, k, nums) && AllUsed(h, nums) && e < |nums| && nums[e] == None && nums' == nums[e := Some(next)]
    ensures HeaderOk(h, k, nums') && AllUsed(h, nums')
  {
    forall s {:trigger SlotOk(h, k, nums', s)} | 0 <= s < h.capacity ensures SlotOk(h, k, nums', s) {
      assert SlotOk(h, k, nums, s) && UsedSlot(h, nums, s);
    }
    StillUsed(h, nums, nums', e);
  }

  lemma StillUsed(h: Header, nums: seq<Option<nat>>, nums': seq<Option<nat>>, e: nat)
    requires AllUsed(h, nums) && |nums| == |nums'|
    requires forall f :: 0 <= f < |nums| && f != e ==> nums'[f] == nums[f]
    requires e < |nums| ==> nums'[e].Some?
    ensures AllUsed(h, nums')
  {
    forall s {:trigger UsedSlot(h, nums', s)} | 0 <= s < |h.index| ensures UsedSlot(h, nums', s) {
      assert UsedSlot(h, nums, s);
    }
  }

  lemma TailFree(h: Header, h': Header, k: Mark, nums: seq<Option<nat>>)
    requires HeaderOk(h, k, nums) && h' == h.(tail := h'.tail) && h'.tail < h.capacity
    ensures HeaderOk(h', k, nums)
  {
    forall s {:trigger SlotOk(h', k, nums, s)} | 0 <= s < h.capacity ensures SlotOk(h', k, nums, s) {
      assert SlotOk(h, k, nums, s);
    }
  }

  // ----- Rewinding -----

  /** (i - 1) & (size - 1) */
  function PrevSlot(i: nat, size: nat): nat
    requires size > 0
  {
    if i == 0 then size - 1 else i - 1
  }

  lemma PrevOfSlot(t: nat, j: nat, size: nat)
    requires t < size && j > 0 && NextSlot(t, size) == Slot(j, size)
    ensures t == Slot(j - 1, size)
  {
    SlotNext(j - 1, size);
  }

  lemma RewindCurrent(h: Header, k: Mark, nums: seq<Option<nat>>, next: nat, top: nat)
    requires HeaderOk(h, k, nums) && CurrentOk(h, k, nums, next, top)
    requires k.origin < next && top < next + h.capacity
    ensures CurrentOk(h.(tail := PrevSlot(h.tail, h.capacity)), k, nums, next - 1, top)
  {
    var h' := h.(tail := PrevSlot(h.tail, h.capacity));
    PrevOfSlot(h.tail, next - k.origin, h.capacity);
    forall n {:trigger NumberAt(h', k, nums, n, Some(n))} | k.origin <= n < top <= n + h.capacity
      ensures NumberAt(h', k, nums, n, Some(n))
    {
      assert NumberAt(h, k, nums, n, Some(n));
    }
    forall n {:trigger NumberAt(h', k, nums, n, None)} | top <= n < k.origin + h.capacity
      ensures NumberAt(h', k, nums, n, None)
    {
      assert NumberAt(h, k, nums, n, None);
    }
  }

  // ----- Growing: the entries are rotated into the lower half of an index of twice the size, oldest first. -----

  lemma SlotReached(k: nat, s: nat, size: nat) returns (i: nat)
    requires s < size
    ensures i < size && Slot(k + i, size) == s
  {
    var at := Slot(k, size);
    i := if s >= at then s - at else s + size - at;
    SlotAhead(k, i, size);
  }

  ghost predicate RingEntry(h: Header, k: Mark, nums: seq<Option<nat>>, next: nat, i: nat) {
    && 0 < h.capacity && k.origin + h.capacity <= next
    && var s := Slot(next - k.origin + i, h.capacity);
      s < |h.index| && h.index[s] < |nums| && nums[h.index[s]] == Some(next - h.capacity + i)
  }

  /** When the entry behind the tail is in use, the index holds exactly the last `capacity` numbers. */
  ghost predicate FullRing(h: Header, k: Mark, nums: seq<Option<nat>>, next: nat) {
    && 0 < h.capacity && k.origin + h.capacity <= next
    && forall i {:trigger RingEntry(h, k, nums, next, i)} :: 0 <= i < h.capacity ==> RingEntry(h, k, nums, next, i)
  }

  lemma RingIsFull(h: Header, k: Mark, nums: seq<Option<nat>>, next: nat)
    requires HeaderOk(h, k, nums) && CurrentOk(h, k, nums, next, next) && k.origin + h.capacity <= next
    ensures FullRing(h, k, nums, next)
  {
    forall i {:trigger RingEntry(h, k, nums, next, i)} | 0 <= i < h.capacity ensures RingEntry(h, k, nums, next, i) {
      assert NumberAt(h, k, nums, next - h.capacity + i, Some(next - h.capacity + i));
      SlotAhead(next - h.capacity + i - k.origin, h.capacity, h.capacity);
    }
  }

  /** The grown index. */
  ghost predicate Rotated(h: Header, k: Mark, h': Header, next: nat, entries: nat) {
    && 0 < h.capacity == |h.index| && k.origin <= next && h'.capacity == |h'.index| == 2 * h.capacity
    && h'.tail == h.capacity - 1
    && (forall i :: 0 <= i < h.capacity ==> h'.index[i] == h.index[Slot(next - k.origin + i, h.capacity)])
    && (forall i :: h.capacity <= i < h'.capacity ==> h'.index[i] == entries + i - h.capacity)
  }

  lemma RotatedHeader(
    h: Header, k: Mark, h': Header, k': Mark, nums: seq<Option<nat>>, nums': seq<Option<nat>>, next: nat)
    requires HeaderOk(h, k, nums) && FullRing(h, k, nums, next) && Rotated(h, k, h', next, |nums|)
    requires nums' == nums + seq(h.capacity, _ => None) && k.order < 58
    requires k.origin + h.capacity <= next && k' == Mark(next - h.capacity, k.order + 1)
    ensures HeaderOk(h', k', nums')
  {
    forall s {:trigger SlotOk(h', k', nums', s)} | 0 <= s < h'.capacity ensures SlotOk(h', k', nums', s) {
      if s < h.capacity {
        assert RingEntry(h, k, nums, next, s);
        SlotSmall(s, h'.capacity);
      }
    }
    forall s, t | 0 <= s < t < h'.capacity ensures h'.index[s] != h'.index[t] {
      RotatedDistinct(h, k, h', nums, next, s, t);
    }
  }

  lemma RotatedCurrent(
    h: Header, k: Mark, h': Header, k': Mark, nums: seq<Option<nat>>, nums': seq<Option<nat>>, next: nat)
    requires FullRing(h, k, nums, next) && Rotated(h, k, h', next, |nums|)
    requires nums' == nums + seq(h.capacity, _ => None)
    requires k' == Mark(next - h.capacity, k.order + 1)
    ensures CurrentOk(h', k', nums', next, next)
  {
    SlotSmall(h.capacity, h'.capacity);
    forall n {:trigger NumberAt(h', k', nums', n, Some(n))} | k'.origin <= n < next
      ensures NumberAt(h', k', nums', n, Some(n))
    {
      SlotSmall(n - k'.origin, h'.capacity);
      assert RingEntry(h, k, nums, next, n - k'.origin);
    }
    forall n {:trigger NumberAt(h', k', nums', n, None)} | next <= n < k'.origin + h'.capacity
      ensures NumberAt(h', k', nums', n, None)
    {
      SlotSmall(n - k'.origin, h'.capacity);
    }
  }

  lemma RotatedDistinct(h: Header, k: Mark, h': Header, nums: seq<Option<nat>>, next: nat, s: nat, t: nat)
    requires HeaderOk(h, k, nums) && FullRing(h, k, nums, next) && Rotated(h, k, h', next, |nums|)
    requires s < t < h'.capacity
    ensures h'.index[s] != h'.index[t]
  {
    if s < h.capacity {
      assert RingEntry(h, k, nums, next, s);
      if t < h.capacity {
        assert RingEntry(h, k, nums, next, t);
        SlotDistinct(next - k.origin + s, next - k.origin + t, h.capacity);
      }
    }
  }

  lemma RotatedListed(h: Header, k: Mark, h': Header, next: nat, entries: nat, e: nat)
    requires Rotated(h, k, h', next, entries) && e < entries + h.capacity && (e < entries ==> Listed(h, e))
    ensures Listed(h', e)
  {
    if e < entries {
      var s :| 0 <= s < |h.index| && h.index[s] == e;
      var i := SlotReached(next - k.origin, s, h.capacity);
      assert h'.index[i] == e;
    } else {
      assert h'.index[h.capacity + (e - entries)] == e;
    }
  }

  lemma RotatedHomes(
    h: Header, k: Mark, h': Header, k': Mark, nums: seq<Option<nat>>, nums': seq<Option<nat>>, next: nat,
    homes: map<nat, nat>)
    requires HeaderOk(h, k, nums) && FullRing(h, k, nums, next) && HomesOk(h, k, nums, homes, next)
    requires k.origin + h.capacity <= next && k'.origin == next - h.capacity && CurrentOk(h', k', nums', next, next)
    requires h'.capacity == 2 * h.capacity
    ensures HomesOk(h', k', nums', homes, next)
  {
    forall n | n in homes ensures NumberAt(h', k', nums', n, Some(n)) {
      assert NumberAt(h, k, nums, n, Some(n));
      var i := SlotReached(next - k.origin, Slot(n - k.origin, h.capacity), h.capacity);
      assert RingEntry(h, k, nums, next, i);
    }
  }

  lemma AllUsedWhenFull(h: Header, k: Mark, nums: seq<Option<nat>>, next: nat)
    requires HeaderOk(h, k, nums) && FullRing(h, k, nums, next)
    ensures AllUsed(h, nums)
  {
    forall s {:trigger UsedSlot(h, nums, s)} | 0 <= s < |h.index| ensures UsedSlot(h, nums, s) {
      var i := SlotReached(next - k.origin, s, h.capacity);
      assert RingEntry(h, k, nums, next, i);
    }
  }

  lemma LongerNums(h: Header, k: Mark, nums: seq<Option<nat>>, nums': seq<Option<nat>>)
    requires HeaderOk(h, k, nums) && nums <= nums'
    ensures HeaderOk(h, k, nums') && (AllUsed(h, nums) ==> AllUsed(h, nums'))
  {
    forall s {:trigger SlotOk(h, k, nums', s)} | 0 <= s < h.capacity ensures SlotOk(h, k, nums', s) {
      assert SlotOk(h, k, nums, s);
    }
    if AllUsed(h, nums) {
      forall s {:trigger UsedSlot(h, nums', s)} | 0 <= s < |h.index| ensures UsedSlot(h, nums', s) {
        assert UsedSlot(h, nums, s);
      }
    }
  }

  lemma GrownHeaders(
    headers: seq<Header>, marks: seq<Mark>, h': Header, k': Mark, nums: seq<Option<nat>>, nums': seq<Option<nat>>)
    requires HeadersOk(headers, marks, nums) && nums <= nums' && HeaderOk(h', k', nums') && |nums'| == h'.capacity
    requires AllUsed(headers[|headers| - 1], nums) && marks[|marks| - 1].order < k'.order
    ensures HeadersOk(headers + [h'], marks + [k'], nums')
  {
    var hs, ks := headers + [h'], marks + [k'];
    forall i {:trigger HeaderOk(hs[i], ks[i], nums')} | 0 <= i < |hs|
      ensures HeaderOk(hs[i], ks[i], nums') && (i < |hs| - 1 ==> AllUsed(hs[i], nums'))
    {
      if i < |headers| {
        assert HeaderOk(headers[i], marks[i], nums);
        LongerNums(headers[i], marks[i], nums, nums');
      }
    }
    forall i | 0 <= i < |hs| - 1 ensures ks[i].order < ks[|ks| - 1].order {
      assert ks[i] == marks[i];
    }
  }

  // ----- The whole index -----

  datatype View = View(nums: seq<Option<nat>>, marks: seq<Mark>, next: nat, top: nat)

  ghost predicate IndexBut(
    entries: seq<Entry>, headers: seq<Header>, v: View, homes: map<nat, nat>, skip: Option<nat>)
  {
    && HeadersOk(headers, v.marks, v.nums)
    && CurrentOk(headers[|headers| - 1], v.marks[|headers| - 1], v.nums, v.next, v.top)
    && HomesOk(headers[|headers| - 1], v.marks[|headers| - 1], v.nums, homes, v.top)
    && (forall e {:trigger Listed(headers[|headers| - 1], e)} ::
          0 <= e < |v.nums| ==> Listed(headers[|headers| - 1], e))
    && EntriesBut(entries, v.nums, homes, skip)
  }

  ghost predicate IndexOk(entries: seq<Entry>, headers: seq<Header>, v: View, homes: map<nat, nat>) {
    IndexBut(entries, headers, v, homes, None)
  }

  ghost predicate ReadersOk(readers: map<nat, Reader>, headers: seq<Header>, v: View, homes: map<nat, nat>) {
    forall x :: x in readers ==> x / 32 in homes && ReaderOk(readers[x], x, headers, v.marks, v.nums)
  }

  lemma OneReader(readers: map<nat, Reader>, headers: seq<Header>, v: View, homes: map<nat, nat>, x: nat, r: Reader)
    requires ReadersOk(readers, headers, v, homes) && x / 32 in homes && ReaderOk(r, x, headers, v.marks, v.nums)
    ensures ReadersOk(readers[x := r], headers, v, homes)
  {}

  lemma FewerReaders(readers: map<nat, Reader>, headers: seq<Header>, v: View, homes: map<nat, nat>, x: nat)
    requires ReadersOk(readers, headers, v, homes)
    ensures ReadersOk(readers - {x}, headers, v, homes)
  {}

  /** The slot behind the tail of the current index, and the entry in it. */
  function NewTail(headers: seq<Header>): nat
    requires headers != []
  {
    NextSlot(headers[|headers| - 1].tail, headers[|headers| - 1].capacity)
  }

  function TailMoved(headers: seq<Header>, tail: nat): seq<Header>
    requires headers != []
  {
    headers[|headers| - 1 := headers[|headers| - 1].(tail := tail)]
  }

  ghost function Used(v: View, e: nat): View
    requires e < |v.nums|
  {
    v.(nums := v.nums[e := Some(v.next)], next := v.next + 1, top := if v.next < v.top then v.top else v.next + 1)
  }

  ghost predicate FreeEntry(v: View, homes: map<nat, nat>, e: nat) {
    e < |v.nums| && (v.nums[e].Some? ==> v.nums[e].value !in homes)
  }

  /** Taking the entry behind the tail: its key is stored and the tail is moved. */
  lemma UseIndex(entries: seq<Entry>, headers: seq<Header>, v: View, homes: map<nat, nat>, e: nat)
    requires IndexOk(entries, headers, v, homes) && v.next !in homes && FreeEntry(v, homes, e)
    requires NewTail(headers) < |headers[|headers| - 1].index| && headers[|headers| - 1].index[NewTail(headers)] == e
    ensures IndexBut(entries[e := entries[e].(key := Base(v.next))], TailMoved(headers, NewTail(headers)), Used(v, e),
                     homes, Some(e))
    ensures NumberAt(TailMoved(headers, NewTail(headers))[|headers| - 1], v.marks[|headers| - 1],
        Used(v, e).nums, v.next, Some(v.next))
  {
    var c := |headers| - 1;
    var h, k, h', v' := headers[c], v.marks[c], TailMoved(headers, NewTail(headers))[c], Used(v, e);
    UseHeaders(headers, TailMoved(headers, NewTail(headers)), v.marks, v.nums, v'.nums, v.next, v.top);
    UseCurrent(h, h', k, v.nums, v'.nums, v.next, v.top);
    forall f {:trigger Listed(h', f)} | 0 <= f < |v'.nums| ensures Listed(h', f) { assert Listed(h, f); }
    UseHomes(h, h', k, v, v', homes, e);
    UseEntries(entries, v, v', homes, e);
  }

  lemma UseHomes(h: Header, h': Header, k: Mark, v: View, v': View, homes: map<nat, nat>, e: nat)
    requires HomesOk(h, k, v.nums, homes, v.top) && FreeEntry(v, homes, e) && v' == Used(v, e)
    requires h' == h.(tail := h'.tail)
    ensures HomesOk(h', k, v'.nums, homes, v'.top)
  {
    forall n | n in homes ensures NumberAt(h', k, v'.nums, n, Some(n)) {
      assert NumberAt(h, k, v.nums, n, Some(n));
    }
  }

  lemma UseEntries(entries: seq<Entry>, v: View, v': View, homes: map<nat, nat>, e: nat)
    requires EntriesBut(entries, v.nums, homes, None) && e < |v.nums| && v' == Used(v, e)
    ensures EntriesBut(entries[e := entries[e].(key := Base(v.next))], v'.nums, homes, Some(e))
  {
    var entries' := entries[e := entries[e].(key := Base(v.next))];
    forall f {:trigger EntryOk(entries', v'.nums, homes, f)} | 0 <= f < |entries'| && f != e
      ensures EntryOk(entries', v'.nums, homes, f)
    {
      assert EntryOk(entries, v.nums, homes, f);
    }
  }

  lemma UseReaders(readers: map<nat, Reader>, headers: seq<Header>, v: View, homes: map<nat, nat>, e: nat, tail: nat)
    requires ReadersOk(readers, headers, v, homes) && FreeEntry(v, homes, e) && headers != []
    ensures ReadersOk(readers, TailMoved(headers, tail), Used(v, e), homes)
  {
    forall x | x in readers ensures ReaderOk(readers[x], x, TailMoved(headers, tail), v.marks, Used(v, e).nums) {
      var r := readers[x];
      assert NumberAt(headers[r.h], v.marks[r.h], v.nums, x / 32, Some(x / 32));
      assert NumberAt(TailMoved(headers, tail)[r.h], v.marks[r.h], Used(v, e).nums, x / 32, Some(x / 32));
    }
  }

  /** Storing the value of an entry says which block, if any, is at its number; `skip` remains exempt unless it is this
      entry. */
  lemma ValueStored(
    entries: seq<Entry>, headers: seq<Header>, v: View, homes: map<nat, nat>, homes': map<nat, nat>, skip: Option<nat>,
    e: nat, n: nat)
    requires IndexBut(entries, headers, v, homes, skip)
    requires e < |v.nums| && v.nums[e] == Some(n)
    requires forall m :: m != n ==> HomeOf(homes', m) == HomeOf(homes, m)
    requires n in homes' ==> n < v.top && NumberAt(headers[|headers| - 1], v.marks[|headers| - 1], v.nums, n, Some(n))
    ensures IndexBut(entries[e := entries[e].(value := HomeOf(homes', n))], headers, v, homes',
                     if skip == Some(e) then None else skip)
  {
    var c := |headers| - 1;
    var entries' := entries[e := entries[e].(value := HomeOf(homes', n))];
    assert HeaderOk(headers[c], v.marks[c], v.nums);
    forall f {:trigger EntryOk(entries', v.nums, homes', f)} | 0 <= f < |entries'| && (f == e || skip != Some(f))
      ensures EntryOk(entries', v.nums, homes', f)
    {
      if f == e {
        assert skip != Some(e) ==> EntryOk(entries, v.nums, homes, e);
      } else {
        assert EntryOk(entries, v.nums, homes, f);
        if v.nums[f] == Some(n) { SameNumber(headers[c], v.marks[c], v.nums, e, f); }
      }
    }
    forall m | m in homes' ensures m < v.top && NumberAt(headers[c], v.marks[c], v.nums, m, Some(m)) {
      assert HomeOf(homes', m).Some?;
      if m != n { assert m in homes; }
    }
  }

  lemma RewindIndex(entries: seq<Entry>, headers: seq<Header>, v: View, homes: map<nat, nat>, skip: Option<nat>)
    requires IndexBut(entries, headers, v, homes, skip)
    requires v.marks[|headers| - 1].origin < v.next && v.top < v.next + headers[|headers| - 1].capacity
    ensures headers[|headers| - 1].capacity > 0
    ensures IndexBut(entries,
                     TailMoved(headers, PrevSlot(headers[|headers| - 1].tail, headers[|headers| - 1].capacity)),
                     v.(next := v.next - 1), homes, skip)
  {
    var c := |headers| - 1;
    var h, k := headers[c], v.marks[c];
    assert HeaderOk(h, k, v.nums);
    var h' := h.(tail := PrevSlot(h.tail, h.capacity));
    RewindCurrent(h, k, v.nums, v.next, v.top);
    TailFree(h, h', k, v.nums);
    MovedHeaders(headers, v.marks, v.nums, h'.tail);
    forall f {:trigger Listed(h', f)} | 0 <= f < |v.nums| ensures Listed(h', f) { assert Listed(h, f); }
    forall n | n in homes ensures NumberAt(h', k, v.nums, n, Some(n)) { assert NumberAt(h, k, v.nums, n, Some(n)); }
  }

  lemma MovedHeaders(headers: seq<Header>, marks: seq<Mark>, nums: seq<Option<nat>>, tail: nat)
    requires HeadersOk(headers, marks, nums)
    requires HeaderOk(TailMoved(headers, tail)[|headers| - 1], marks[|headers| - 1], nums)
    ensures HeadersOk(TailMoved(headers, tail), marks, nums)
  {
    var hs := TailMoved(headers, tail);
    forall i {:trigger HeaderOk(hs[i], marks[i], nums)} | 0 <= i < |hs|
      ensures HeaderOk(hs[i], marks[i], nums) && (i < |hs| - 1 ==> AllUsed(hs[i], nums))
    {
      assert HeaderOk(headers[i], marks[i], nums);
    }
  }

  lemma MovedReaders(
    readers: map<nat, Reader>, headers: seq<Header>, v: View, v': View, homes: map<nat, nat>, tail: nat)
    requires ReadersOk(readers, headers, v, homes) && headers != [] && v'.marks == v.marks && v'.nums == v.nums
    ensures ReadersOk(readers, TailMoved(headers, tail), v', homes)
  {
    forall x | x in readers ensures ReaderOk(readers[x], x, TailMoved(headers, tail), v'.marks, v'.nums) {
      var r := readers[x];
      assert NumberAt(headers[r.h], v.marks[r.h], v.nums, x / 32, Some(x / 32));
      assert NumberAt(TailMoved(headers, tail)[r.h], v.marks[r.h], v.nums, x / 32, Some(x / 32));
    }
  }

  ghost predicate InUse(v: View, homes: map<nat, nat>, e: nat) {
    e < |v.nums| && v.nums[e].Some? && v.nums[e].value in homes
  }

  lemma FullWhenInUse(headers: seq<Header>, v: View, homes: map<nat, nat>, e: nat)
    requires HeadersOk(headers, v.marks, v.nums) && v.next !in homes && InUse(v, homes, e)
    requires CurrentOk(headers[|headers| - 1], v.marks[|headers| - 1], v.nums, v.next, v.top)
    requires NewTail(headers) < |headers[|headers| - 1].index| && headers[|headers| - 1].index[NewTail(headers)] == e
    ensures v.next == v.top && v.marks[|headers| - 1].origin + headers[|headers| - 1].capacity <= v.next
    ensures FullRing(headers[|headers| - 1], v.marks[|headers| - 1], v.nums, v.next)
  {
    var h, k := headers[|headers| - 1], v.marks[|headers| - 1];
    assert HeaderOk(h, k, v.nums);
    NextEntry(h, k, v.nums, v.next, v.top);
    RingIsFull(h, k, v.nums, v.next);
  }

  lemma GrowIndex(
    entries: seq<Entry>, headers: seq<Header>, v: View, homes: map<nat, nat>, h': Header, k': Mark, added: seq<Entry>,
    v': View)
    requires IndexOk(entries, headers, v, homes) && v.next == v.top
    requires FullRing(headers[|headers| - 1], v.marks[|headers| - 1], v.nums, v.next)
    requires Rotated(headers[|headers| - 1], v.marks[|headers| - 1], h', v.next, |v.nums|)
    requires v.marks[|headers| - 1].order < 58 && |added| == headers[|headers| - 1].capacity <= v.next
    requires forall i :: 0 <= i < |added| ==> added[i].key == INVALID_BLOCK_BASE
    requires k' == Mark(v.next - |added|, v.marks[|headers| - 1].order + 1)
    requires v' == v.(nums := v.nums + seq(|added|, _ => None), marks := v.marks + [k'])
    ensures IndexOk(entries + added, headers + [h'], v', homes)
  {
    var h, k := headers[|headers| - 1], v.marks[|headers| - 1];
    assert HeaderOk(h, k, v.nums);
    RotatedAll(headers, v, homes, h', k', v');
    forall f {:trigger Listed(h', f)} | 0 <= f < |v'.nums| ensures Listed(h', f) {
      assert f < |v.nums| ==> Listed(h, f);
      RotatedListed(h, k, h', v.next, |v.nums|, f);
    }
    GrownEntries(entries, v, v', homes, added);
  }

  lemma RotatedAll(headers: seq<Header>, v: View, homes: map<nat, nat>, h': Header, k': Mark, v': View)
    requires HeadersOk(headers, v.marks, v.nums)
    requires HomesOk(headers[|headers| - 1], v.marks[|headers| - 1], v.nums, homes, v.next)
    requires FullRing(headers[|headers| - 1], v.marks[|headers| - 1], v.nums, v.next)
    requires Rotated(headers[|headers| - 1], v.marks[|headers| - 1], h', v.next, |v.nums|)
    requires v.marks[|headers| - 1].order < 58 && headers[|headers| - 1].capacity <= v.next
    requires k' == Mark(v.next - headers[|headers| - 1].capacity, v.marks[|headers| - 1].order + 1)
    requires v'.nums == v.nums + seq(headers[|headers| - 1].capacity, _ => None) && v'.marks == v.marks + [k']
    ensures HeadersOk(headers + [h'], v'.marks, v'.nums) && CurrentOk(h', k', v'.nums, v.next, v.next)
    ensures HomesOk(h', k', v'.nums, homes, v.next)
  {
    var h, k := headers[|headers| - 1], v.marks[|headers| - 1];
    assert HeaderOk(h, k, v.nums);
    RotatedHeader(h, k, h', k', v.nums, v'.nums, v.next);
    RotatedCurrent(h, k, h', k', v.nums, v'.nums, v.next);
    RotatedHomes(h, k, h', k', v.nums, v'.nums, v.next, homes);
    AllUsedWhenFull(h, k, v.nums, v.next);
    GrownHeaders(headers, v.marks, h', k', v.nums, v'.nums);
  }

  lemma GrownEntries(entries: seq<Entry>, v: View, v': View, homes: map<nat, nat>, added: seq<Entry>)
    requires EntriesBut(entries, v.nums, homes, None) && v'.nums == v.nums + seq(|added|, _ => None)
    requires forall i :: 0 <= i < |added| ==> added[i].key == INVALID_BLOCK_BASE
    ensures EntriesBut(entries + added, v'.nums, homes, None)
  {
    forall f {:trigger EntryOk(entries + added, v'.nums, homes, f)} | 0 <= f < |entries + added|
      ensures EntryOk(entries + added, v'.nums, homes, f)
    {
      if f < |entries| { assert EntryOk(entries, v.nums, homes, f); }
    }
  }

  lemma GrowReaders(
    readers: map<nat, Reader>, headers: seq<Header>, v: View, v': View, homes: map<nat, nat>, h: Header, k: Mark)
    requires ReadersOk(readers, headers, v, homes) && v.nums <= v'.nums && v'.marks == v.marks + [k]
    ensures ReadersOk(readers, headers + [h], v', homes)
  {
    forall x | x in readers ensures ReaderOk(readers[x], x, headers + [h], v'.marks, v'.nums) {
      var r := readers[x];
      assert NumberAt(headers[r.h], v.marks[r.h], v.nums, x / 32, Some(x / 32));
      assert NumberAt((headers + [h])[r.h], v'.marks[r.h], v'.nums, x / 32, Some(x / 32));
    }
  }

  /** Copies the pointers, starting behind the tail, and appends the fresh entries. */
  method BuildIndex(prev: Header, ghost k: Mark, ghost next: nat, entries: nat) returns (h: Header)
    requires 0 < prev.capacity == |prev.index| && prev.tail < prev.capacity && k.origin <= next
    requires NextSlot(prev.tail, prev.capacity) == Slot(next - k.origin, prev.capacity)
    ensures Rotated(prev, k, h, next, entries)
  {
    ghost var first := next - k.origin;
    var index: seq<nat>, prevPos: nat := [], prev.tail;
    while |index| == 0 || prevPos != prev.tail
      invariant |index| <= prev.capacity && prevPos < prev.capacity
      invariant NextSlot(prevPos, prev.capacity) == Slot(first + |index|, prev.capacity)
      invariant |index| == prev.capacity ==> prevPos == prev.tail
      invariant forall i :: 0 <= i < |index| ==> index[i] == prev.index[Slot(first + i, prev.capacity)]
      decreases prev.capacity - |index|
    {
      SlotNext(first + |index|, prev.capacity);
      prevPos := NextSlot(prevPos, prev.capacity);
      index := index + [prev.index[prevPos]];
      if |index| == prev.capacity { AllRound(first, prev.tail, prevPos, prev.capacity); }
    }
    if |index| < prev.capacity { PartRound(first, prev.tail, |index|, prev.capacity); }
    h := Header(2 * prev.capacity, prev.capacity - 1, index + seq(prev.capacity, i => entries + i));
  }

  lemma AllRound(first: nat, tail: nat, pos: nat, size: nat)
    requires 0 < size && tail < size && NextSlot(tail, size) == Slot(first, size)
    requires pos < size && NextSlot(pos, size) == Slot(first + size, size)
    ensures pos == tail
  {
    SlotAhead(first, size, size);
  }

  lemma PartRound(first: nat, tail: nat, i: nat, size: nat)
    requires 0 < i < size && NextSlot(tail, size) == Slot(first, size)
    ensures NextSlot(tail, size) != Slot(first + i, size)
  {
    SlotDistinct(first, first + i, size);
  }

  // ----- Lookups -----

  /** While a block is in use, the tail of the current index has been used, even after a rewind. */
  lemma TailUsed(headers: seq<Header>, v: View)
    requires HeadersOk(headers, v.marks, v.nums) && v.marks[|headers| - 1].origin < v.next
    requires CurrentOk(headers[|headers| - 1], v.marks[|headers| - 1], v.nums, v.next, v.top)
    ensures UsedSlot(headers[|headers| - 1], v.nums, headers[|headers| - 1].tail)
  {
    var h, k, n := headers[|headers| - 1], v.marks[|headers| - 1], v.next - 1;
    assert HeaderOk(h, k, v.nums);
    PrevOfSlot(h.tail, v.next - k.origin, h.capacity);
    if v.top <= n + h.capacity {
      assert NumberAt(h, k, v.nums, n, Some(n));
    } else {
      assert NumberAt(h, k, v.nums, n + h.capacity, Some(n + h.capacity));
      SlotAhead(n - k.origin, h.capacity, h.capacity);
    }
  }

  lemma TailLoaded(headers: seq<Header>, v: View, x: nat, h: nat)
    requires HeadersOk(headers, v.marks, v.nums) && ReaderOk(Indexed(h), x, headers, v.marks, v.nums) && x / 32 < v.next
    requires CurrentOk(headers[|headers| - 1], v.marks[|headers| - 1], v.nums, v.next, v.top)
    ensures ReaderOk(Tailed(h, headers[h].tail), x, headers, v.marks, v.nums)
  {
    assert HeaderOk(headers[h], v.marks[h], v.nums);
    if h == |headers| - 1 { TailUsed(headers, v); }
  }

  lemma KeyLoaded(
    entries: seq<Entry>, headers: seq<Header>, v: View, homes: map<nat, nat>, skip: Option<nat>, x: nat, h: nat,
    slot: nat)
    returns (m: nat)
    requires HeadersOk(headers, v.marks, v.nums) && EntriesBut(entries, v.nums, homes, skip)
    requires ReaderOk(Tailed(h, slot), x, headers, v.marks, v.nums)
    ensures slot < |headers[h].index| && headers[h].index[slot] < |entries|
    ensures var key := entries[headers[h].index[slot]].key;
      ReaderOk(Keyed(h, slot, key, m), x, headers, v.marks, v.nums) && key != INVALID_BLOCK_BASE
  {
    assert HeaderOk(headers[h], v.marks[h], v.nums);
    var e := headers[h].index[slot];
    assert SlotOk(headers[h], v.marks[h], v.nums, slot) && (skip != Some(e) ==> EntryOk(entries, v.nums, homes, e));
    m := v.nums[headers[h].index[slot]].value;
    BaseAligned(m);
  }

  /** get_block_index_index_for_index: the slot of the entry for a block base, computed from the tail's key. */
  function LookupIn(h: Header, slot: nat, key: nat, base: nat): (i: nat)
    requires h.capacity > 0
    ensures i < h.capacity
  {
    SourceSlot(slot, base, key, h.capacity)
  }

  /** Through the index, tail slot and key that a consumer has loaded, however stale, the source's lookup reaches
      the slot of the consumer's own block, ... */
  lemma LookupReaches(h: Header, k: Mark, x: nat, slot: nat, key: nat, m: nat)
    requires h.capacity == Pow2(k.order) && k.order <= 58 && k.origin <= x / 32 && k.origin <= m
    requires key == Base(m) && slot == Slot(m - k.origin, h.capacity)
    ensures LookupIn(h, slot, key, Base(x / 32)) == Slot(x / 32 - k.origin, h.capacity)
  {
    LookupSlot(x / 32 - k.origin, m - k.origin, k.origin, h.capacity, k.order);
  }

  /** ... and the entry there has the key of that block, and the block. */
  lemma LookupFinds(
    entries: seq<Entry>, headers: seq<Header>, v: View, homes: map<nat, nat>, skip: Option<nat>, x: nat, r: Reader,
    i: nat)
    requires HeadersOk(headers, v.marks, v.nums) && EntriesBut(entries, v.nums, homes, skip)
    requires skip.Some? && skip.value < |v.nums| ==> v.nums[skip.value] != Some(x / 32)
    requires ReaderOk(r, x, headers, v.marks, v.nums) && 0 < headers[r.h].capacity
    requires i == Slot(x / 32 - v.marks[r.h].origin, headers[r.h].capacity)
    ensures i < |headers[r.h].index| && headers[r.h].index[i] < |entries| == |v.nums|
    ensures v.nums[headers[r.h].index[i]] == Some(x / 32)
    ensures entries[headers[r.h].index[i]] == Entry(Base(x / 32), HomeOf(homes, x / 32))
  {
    assert HeaderOk(headers[r.h], v.marks[r.h], v.nums);
    assert EntryOk(entries, v.nums, homes, headers[r.h].index[i]);
  }

  // ----- Rewinding a bulk enqueue -----

  /** A failed bulk enqueue has the room to rewind to its first block: the entries of its own blocks are in use,
      so none of them has been taken twice, even if the index has grown meanwhile. */
  lemma RewindRoom(headers: seq<Header>, v: View, homes: map<nat, nat>, first: nat)
    requires HeadersOk(headers, v.marks, v.nums)
    requires CurrentOk(headers[|headers| - 1], v.marks[|headers| - 1], v.nums, v.next, v.top)
    requires HomesOk(headers[|headers| - 1], v.marks[|headers| - 1], v.nums, homes, v.top)
    requires first in homes
    ensures v.marks[|headers| - 1].origin <= first && v.top <= first + headers[|headers| - 1].capacity
  {
    var h, k := headers[|headers| - 1], v.marks[|headers| - 1];
    assert NumberAt(h, k, v.nums, first, Some(first));
    if v.top > first + h.capacity {
      var q := LastAlike(first, v.top, h.capacity);
      assert NumberAt(h, k, v.nums, first + q * h.capacity, Some(first + q * h.capacity));
      SlotPeriod(first - k.origin, q, h.capacity);
    }
  }

  /** The last number below `top` that shares its slot with `first`. */
  lemma LastAlike(first: nat, top: nat, size: nat) returns (q: nat)
    requires size > 0 && top > first + size
    ensures q * size > 0 && first + q * size < top <= first + q * size + size
  {
    q := (top - 1 - first) / size;
    var r := (top - 1 - first) % size;
    assert top - 1 - first == q * size + r;
    if q == 0 { assert q * size == 0; } else { AtLeastOnce(q, size); }
  }

  // ----- The source's tests -----

  /** The first index: all entries unused, in order, with the tail in front of the first. */
  lemma FirstIndex(h: Header, order: nat, entries: seq<Entry>, v: View)
    requires order <= 58 && h == Header(Pow2(order), Pow2(order) - 1, seq(Pow2(order), (i: nat) => i))
    requires |entries| == Pow2(order)
    requires forall e :: 0 <= e < |entries| ==> entries[e].key == INVALID_BLOCK_BASE
    requires v == View(seq(Pow2(order), _ => None), [Mark(0, order)], 0, 0)
    ensures IndexOk(entries, [h], v, map[])
  {
    var k := Mark(0, order);
    forall s {:trigger SlotOk(h, k, v.nums, s)} | 0 <= s < h.capacity ensures SlotOk(h, k, v.nums, s) {}
    forall n {:trigger NumberAt(h, k, v.nums, n, None)} | 0 <= n < h.capacity ensures NumberAt(h, k, v.nums, n, None) {}
    forall e {:trigger Listed(h, e)} | 0 <= e < |v.nums| ensures Listed(h, e) { assert h.index[e] == e; }
    forall e {:trigger EntryOk(entries, v.nums, map[], e)} | 0 <= e < |entries|
      ensures EntryOk(entries, v.nums, map[], e)
    {}
    assert HeaderOk([h][0], [k][0], v.nums);
  }

  /** What the source's test of the entry behind the tail says. */
  lemma EntryTest(entries: seq<Entry>, headers: seq<Header>, v: View, homes: map<nat, nat>) returns (e: nat)
    requires IndexOk(entries, headers, v, homes)
    ensures NewTail(headers) < |headers[|headers| - 1].index| && e == headers[|headers| - 1].index[NewTail(headers)]
    ensures e < |entries| == |v.nums|
    ensures entries[e].key == INVALID_BLOCK_BASE || entries[e].value == None <==> FreeEntry(v, homes, e)
    ensures !FreeEntry(v, homes, e) ==> InUse(v, homes, e)
  {
    var h, k := headers[|headers| - 1], v.marks[|headers| - 1];
    assert HeaderOk(h, k, v.nums);
    assert SlotOk(h, k, v.nums, NewTail(headers));
    e := h.index[NewTail(headers)];
    assert EntryOk(entries, v.nums, homes, e);
    if v.nums[e].Some? { BaseAligned(v.nums[e].value); }
  }

  /** That entry is free exactly if the block one capacity ago is no longer in use. */
  lemma FreeMeans(headers: seq<Header>, v: View, homes: map<nat, nat>, entries: seq<Entry>, e: nat)
    requires IndexOk(entries, headers, v, homes) && v.next !in homes
    requires NewTail(headers) < |headers[|headers| - 1].index|
    requires e == headers[|headers| - 1].index[NewTail(headers)] < |v.nums|
    ensures var capacity := headers[|headers| - 1].capacity;
      FreeEntry(v, homes, e) <==> v.next < capacity || v.next - capacity !in homes
  {
    var h, k := headers[|headers| - 1], v.marks[|headers| - 1];
    assert HeaderOk(h, k, v.nums);
    NextEntry(h, k, v.nums, v.next, v.top);
    if v.next >= h.capacity && v.next - h.capacity in homes {
      SameEntry(h, k, v.nums, v.next - h.capacity, v.next);
    }
  }

  lemma SameEntry(h: Header, k: Mark, nums: seq<Option<nat>>, n: nat, m: nat)
    requires NumberAt(h, k, nums, n, Some(n)) && m == n + h.capacity
    ensures NumberAt(h, k, nums, m, Some(n))
  {
    SlotAhead(n - k.origin, h.capacity, h.capacity);
  }

  lemma UnusedEntry(entries: seq<Entry>, headers: seq<Header>, v: View, homes: map<nat, nat>, e: nat)
    requires IndexOk(entries, headers, v, homes)
    requires v.next == v.top < v.marks[|headers| - 1].origin + headers[|headers| - 1].capacity
    requires NewTail(headers) < |headers[|headers| - 1].index|
    requires e == headers[|headers| - 1].index[NewTail(headers)] < |v.nums|
    ensures v.nums[e] == None && entries[e].key == INVALID_BLOCK_BASE
  {
    var h, k := headers[|headers| - 1], v.marks[|headers| - 1];
    assert HeaderOk(h, k, v.nums);
    NextEntry(h, k, v.nums, v.next, v.top);
    assert EntryOk(entries, v.nums, homes, e);
  }
}
