/** What consumers meet while the explicit producer of concurrentqueue.h enqueues: a machine whose steps are the single
    accesses to the block index, its entries, its front and the tail index. An enqueue starts one block, a bulk enqueue
    one after the other: the producer tests whether the next block of its ring is empty; if so it takes that block,
    otherwise it may install an index of twice the size, and links a block from the pool into the ring; then it writes
    the base and the block of the next entry. When all its blocks have entries it moves the front, and then the tail; if
    it cannot get a block it puts its own variables back, and the blocks it has started stay in the ring. Any number of
    consumers load the index, its front, the base there and the block, and take their elements, between any two of these
    steps. */
module ExplicitRace {
  import opened Prelude
  import opened CircularIndex
  import opened ExplicitIndex
  import D = DequeueCounters

  datatype Consumer = Claimed | Looking(r: Reader) | Based(r: Reader, base: nat) | Holding(b: nat)

  /** Block b is about to be entered into the index when the producer is Ready. */
  datatype Producer = Quiet | Checked(empty: bool) | Ready(b: nat) | BaseStored(b: nat)

  /** headers are all indexes ever installed, the last one is blockIndex; `size`, `front` and `used` are the
      producer's pr_blockIndexSize, pr_blockIndexFront and pr_blockIndexSlotsUsed, and `undo` its
      originalBlockIndexFront. `homes` has the blocks entered into the index, by number; `exposed` of them were
      started before the operation under way. The ring is, from the block after the tail block: `spares`, the blocks
      that a refused operation has left there, and then number `low` and the following ones. `added` blocks were
      linked in by the operation under way, and `grown` says whether it has replaced the index. `done` has the
      elements whose flags are set. */
  datatype State = State(
    headers: seq<Header>, size: nat, front: nat, used: nat, undo: nat, added: nat, grown: bool, exposed: nat, tail: nat,
    head: nat, producer: Producer, claims: map<nat, Consumer>, marks: seq<Mark>, order: nat, homes: seq<nat>, low: nat,
    spares: seq<nat>, done: set<nat>)

  datatype Action =
    | Check | TakeAhead | Refuse(ring: seq<nat>) | Grow(memory: seq<Entry>) | Insert(b: nat) | StoreBase | StoreBlock
    | StoreFront | Publish(t: nat)
    | Claim | LoadIndex(x: nat) | LoadFront(x: nat) | LoadBase(x: nat) | LoadBlock(x: nat) | Take(x: nat)

  // ----- Steps -----

  predicate Starting(p: Producer) { p.Ready? || p.BaseStored? }

  /** One for a block that is about to be entered. */
  function More(p: Producer): nat { if Starting(p) then 1 else 0 }

  /** How many of its blocks the operation under way has taken from ahead in the ring. */
  function Reused(s: State): int { |s.homes| + More(s.producer) - s.exposed - s.added }

  /** The block after the tail block was not started by this operation, and reads as empty. Once a block has been
      linked in the producer does not look ahead any more. */
  ghost predicate NextIsEmpty(s: State) {
    s.added == 0 && (s.spares != [] || (s.low < s.exposed <= |s.homes| && DrainedBlock(s.done, s.low)))
  }

  /** The entries of a full index, oldest first, in front of what the new memory holds. */
  function Copied(h: Header, front: nat, used: nat, memory: seq<Entry>): seq<Entry>
    requires used <= |memory|
  {
    seq(used, j requires 0 <= j < used =>
      var i := if front + j < h.size then front + j else front + j - h.size;
      if 0 <= i < |h.entries| then h.entries[i] else memory[j]) + memory[used..]
  }

  ghost predicate ProducerEnabled(s: State, a: Action) {
    match a
    case Check => s.producer.Quiet? && Blocks(s.tail) == s.exposed
    case TakeAhead => s.producer == Checked(true) && (s.spares == [] ==> s.low < |s.homes|)
    case Refuse(ring) => s.producer == Checked(false) && s.exposed <= |s.homes| && s.added <= s.used
        && multiset(ring) == multiset(s.homes[s.exposed..] + s.spares)
    case Grow(memory) => s.producer == Checked(false) && (s.headers == [] || s.used == s.size)
        && 2 * s.size <= MAX_ENTRIES
        && |memory| == 2 * s.size && s.added <= s.used <= s.size
    case Insert(b) => s.producer == Checked(false) && s.headers != [] && s.used < s.size && s.low <= |s.homes|
        && b !in s.homes[s.low..] && b !in s.spares
    case StoreBase => s.producer.Ready? && s.headers != [] && s.front < |Last(s).entries| && s.exposed <= |s.homes|
    case StoreBlock => s.producer.BaseStored? && s.headers != [] && s.front < |Last(s).entries|
    case StoreFront => s.producer.Quiet? && s.headers != [] && |s.marks| == |s.headers| && s.exposed < |s.homes|
    case Publish(t) => s.producer.Quiet? && s.exposed == |s.homes| && s.tail < t && Blocks(t) == s.exposed
    case _ => false
  }

  function Last(s: State): Header
    requires s.headers != []
  {
    s.headers[|s.headers| - 1]
  }

  function WithEntry(s: State, e: Entry): seq<Header>
    requires s.headers != [] && s.front < |Last(s).entries|
  {
    s.headers[|s.headers| - 1 := Last(s).(entries := Last(s).entries[s.front := e])]
  }

  /** (i - 1) & (size - 1) */
  function Before(i: nat, size: nat): nat { if i > 0 then i - 1 else if size > 0 then size - 1 else 0 }

  ghost function ProducerStep(s: State, a: Action): State
    requires ProducerEnabled(s, a)
  {
    match a
    case Check => s.(producer := Checked(NextIsEmpty(s)))
    case TakeAhead =>
      if s.spares != [] then s.(spares := s.spares[1..], producer := Ready(s.spares[0]))
      else s.(low := s.low + 1, producer := Ready(s.homes[s.low]))
    case Refuse(ring) => Refused(s, ring)
    case Grow(memory) => Growth(s, memory)
    case Insert(b) => s.(used := s.used + 1, added := s.added + 1, producer := Ready(b))
    case StoreBase =>
      s.(headers := WithEntry(s, Last(s).entries[s.front].(base := BulkBase(s.tail, |s.homes| - s.exposed))),
         producer := BaseStored(s.producer.b))
    case StoreBlock =>
      s.(headers := WithEntry(s, Last(s).entries[s.front].(block := s.producer.b)), front := NextSlot(s.front, s.size),
         homes := s.homes + [s.producer.b], producer := Quiet)
    case StoreFront =>
      var c := |s.headers| - 1;
      s.(headers := s.headers[c := s.headers[c].(front := Before(s.front, s.size))],
         marks := s.marks[c := s.marks[c].(last := |s.homes| - 1)], exposed := |s.homes|, added := 0, grown := false,
         undo := s.front)
    case Publish(t) => s.(tail := t)
  }

  /** new_block_index: the index is built out of sight and then stored; its front exposes as many entries as were used
      before the operation. */
  ghost function Growth(s: State, memory: seq<Entry>): State
    requires s.added <= s.used <= |memory|
  {
    var entries := if s.headers == [] then memory else Copied(Last(s), s.front, s.used, memory);
    var h := Header(2 * s.size, D.Wrap(s.used - s.added - 1), entries);
    var k := Mark(if s.used <= |s.homes| then |s.homes| - s.used else 0, s.order + 1,
                  if s.added < |s.homes| then |s.homes| - s.added - 1 else 0);
    s.(headers := s.headers + [h], marks := s.marks + [k], size := 2 * s.size, order := s.order + 1, front := s.used,
       undo := s.used - s.added, grown := true)
  }

  /** The blocks started before were all emptied. */
  ghost predicate Idle(s: State) {
    forall n {:trigger DrainedBlock(s.done, n)} :: s.low <= n < s.exposed ==> DrainedBlock(s.done, n)
  }

  /** The index has been replaced after blocks were taken from ahead: the entries of those stand between the last one
      exposed and the slot that originalBlockIndexFront is now set to. */
  predicate Shifted(s: State) { s.grown && Reused(s) > 0 }

  /** The operation gives up: pr_blockIndexFront and pr_blockIndexSlotsUsed are put back, and the blocks it has
      started stay in the ring behind the tail block, which is the one it was before. In which order does not matter,
      as they are all empty. If nothing is left to be found in the index its entries may as well be numbered from the
      new front on. */
  ghost function Refused(s: State, ring: seq<nat>): State
    requires s.exposed <= |s.homes| && s.added <= s.used
  {
    var s' := s.(homes := s.homes[..s.exposed], spares := ring, front := s.undo, used := s.used - s.added, added := 0,
                 grown := false, producer := Quiet);
    if Shifted(s) && Idle(s) && 0 < s.undo <= s.exposed && s.marks != [] then
      var c := |s.marks| - 1;
      s'.(marks := s.marks[c := s.marks[c].(origin := s.exposed - s.undo, last := s.exposed - 1)])
    else s'
  }

  ghost predicate ConsumerEnabled(s: State, a: Action) {
    match a
    case Claim => s.head < s.tail
    case LoadIndex(x) => x in s.claims && s.claims[x].Claimed? && s.headers != []
    case LoadFront(x) => x in s.claims && s.claims[x].Looking? && s.claims[x].r.Loaded? && s.claims[x].r.h < |s.headers|
        && |s.marks| == |s.headers|
    case LoadBase(x) => x in s.claims && s.claims[x].Looking? && s.claims[x].r.Fronted? && s.claims[x].r.h < |s.headers|
        && s.claims[x].r.slot < |s.headers[s.claims[x].r.h].entries|
    case LoadBlock(x) => x in s.claims && s.claims[x].Based? && s.claims[x].r.Fronted? && s.claims[x].r.h < |s.headers|
        && FoundSlot(s, x) < |s.headers[s.claims[x].r.h].entries|
    case Take(x) => x in s.claims && s.claims[x].Holding?
    case _ => false
  }

  /** The slot that a consumer computes from the front it has loaded and the base there. */
  function FoundSlot(s: State, x: nat): nat
    requires x in s.claims && s.claims[x].Based? && s.claims[x].r.Fronted? && s.claims[x].r.h < |s.headers|
  {
    var r, h := s.claims[x].r, s.headers[s.claims[x].r.h];
    if h.size == 0 then 0 else SourceSlot(r.slot, BlockStart(D.Wrap(x)), s.claims[x].base, h.size)
  }

  function At(s: State, x: nat, c: Consumer): State { s.(claims := s.claims[x := c]) }

  function ConsumerStep(s: State, a: Action): State
    requires ConsumerEnabled(s, a)
  {
    match a
    case Claim => At(s, s.head, Claimed).(head := s.head + 1)
    case LoadIndex(x) => At(s, x, Looking(Loaded(|s.headers| - 1)))
    case LoadFront(x) =>
      var h := s.claims[x].r.h;
      At(s, x, Looking(Fronted(h, s.headers[h].front, s.marks[h].last)))
    case LoadBase(x) =>
      var r := s.claims[x].r;
      At(s, x, Based(r, s.headers[r.h].entries[r.slot].base))
    case LoadBlock(x) => At(s, x, Holding(s.headers[s.claims[x].r.h].entries[FoundSlot(s, x)].block))
    case Take(x) => s.(claims := s.claims - {x}, done := s.done + {x})
  }

  ghost predicate Follows(p: State, a: Action, s: State) {
    || (ProducerEnabled(p, a) && s == ProducerStep(p, a))
    || (ConsumerEnabled(p, a) && s == ConsumerStep(p, a))
  }

  /** A refused operation does no harm: it has linked in no block from the pool, which pr_blockIndexSlotsUsed would not
      count any more, and it has not moved originalBlockIndexFront away from the last entry that is in use. */
  ghost predicate Harmless(s: State) { s.added == 0 && (Shifted(s) ==> Idle(s)) }

  ghost predicate Sound(p: State, a: Action) { a.Refuse? ==> Harmless(p) }

  /** The constructor has installed an index of pr_blockIndexSize entries, or its allocation has failed. */
  ghost predicate Init(s: State, order: nat, memory: seq<Entry>, ok: bool, slot: nat) {
    && order <= 58 && |memory| == Pow2(order)
    && s == State(if ok then [Header(Pow2(order), slot, memory)] else [], Pow2(order), 0, 0, 0, 0, false, 0, 0, 0,
                  Quiet, map[], if ok then [Mark(0, order, 0)] else [], order, [], 0, [], {})
  }

  /** s is reached from p by a run in which refused operations do no harm. */
  ghost predicate Leads(p: State, run: Trace<Action>, s: State) {
    match run
    case Start => s == p
    case Then(before, a) => exists q :: Leads(p, before, q) && Sound(q, a) && Follows(q, a, s)
  }

  ghost predicate Reaches(run: Trace<Action>, s: State) {
    match run
    case Start => exists order: nat, memory: seq<Entry>, ok: bool, slot: nat :: Init(s, order, memory, ok, slot)
    case Then(before, a) => exists p :: Reaches(before, p) && Sound(p, a) && Follows(p, a, s)
  }

  ghost predicate Reachable(s: State) { exists run :: Reaches(run, s) }

  // ----- The invariant -----

  /** The block numbers that a front has led to. */
  function Bound(s: State): int { if s.grown then s.exposed + Reused(s) else s.exposed }

  function Shown(s: State): seq<nat> { if 0 <= Bound(s) <= |s.homes| then s.homes[..Bound(s)] else s.homes }

  ghost predicate SizeOk(h: Header, k: Mark) { k.order <= 58 && 0 < h.size == |h.entries| == Pow2(k.order) }

  /** The front of an index leads to the entry of block `last`. */
  ghost predicate FrontRight(h: Header, k: Mark, homes: seq<nat>) {
    EntryAt(h, k, homes, k.last) && h.front == Slot(k.last - k.origin, h.size)
  }

  /** The current index holds the entries of the blocks from `kept` on, right behind the next slot to write; its front
      is that of the last block that a front has led to. */
  ghost predicate CurrentOk(
    h: Header, k: Mark, homes: seq<nat>, kept: nat, size: nat, order: nat, front: nat, exposed: nat, bound: int)
  {
    && h.size == size && k.order == order && 0 < size
    && k.origin <= exposed && k.origin <= |homes| && front == Slot(|homes| - k.origin, size)
    && (exposed > 0 ==> k.last == bound - 1 && k.origin <= k.last && h.front == Slot(k.last - k.origin, size))
    && (forall n {:trigger EntryAt(h, k, homes, n)} :: kept <= n < |homes| ==> EntryAt(h, k, homes, n))
  }

  ghost predicate CountsOk(s: State, kept: nat) {
    && s.size == Pow2(s.order) && s.order <= 58 && s.added <= s.used <= s.size
    && s.low <= kept && s.low <= s.exposed <= |s.homes| && |s.homes| + More(s.producer) <= kept + s.size
    && 0 <= Reused(s)
    && (s.exposed > 0 ==> 0 < |s.spares| + Reused(s) + s.exposed - s.low)
    && (s.headers == [] ==> s.homes == [] && s.spares == [] && s.used == 0)
    && (Starting(s.producer) ==> s.headers != [])
    && (s.grown ==> s.headers != [] && (s.added == 0 ==> s.producer == Checked(false)))
    && (s.producer == Checked(true) ==> s.added == 0)
    && (s.producer.Quiet? && s.exposed == |s.homes| ==> s.added == 0 && !s.grown)
  }

  /** The entry being written, and the slot to go back to. */
  ghost predicate EntryPart(s: State) {
    && (s.producer.BaseStored? ==>
          s.headers != [] && s.front < |Last(s).entries| && Last(s).entries[s.front].base == Base(|s.homes|))
    && (s.headers != [] && s.marks != [] ==>
          var k := s.marks[|s.marks| - 1];
          && k.origin <= Bound(s) && 0 < s.size && s.undo == Slot(Bound(s) - k.origin, s.size)
          && (s.grown ==> s.undo == Bound(s) - k.origin == |s.spares| + Reused(s) + s.exposed - s.low))
  }

  ghost predicate IndexInv(s: State, kept: nat) {
    && |s.headers| == |s.marks| && CountsOk(s, kept) && EntryPart(s)
    && (forall h {:trigger s.headers[h]} :: 0 <= h < |s.headers| ==> SizeOk(s.headers[h], s.marks[h]))
    && (s.headers != [] ==>
          CurrentOk(Last(s), s.marks[|s.headers| - 1], s.homes, kept, s.size, s.order, s.front, s.exposed, Bound(s)))
  }

  ghost predicate OnTrack(c: Consumer, x: nat, headers: seq<Header>, marks: seq<Mark>, homes: seq<nat>) {
    match c
    case Claimed => true
    case Looking(r) =>
      && ReaderOk(r, x, headers, marks, homes)
      && (r.Loaded? && r.h < |headers| - 1 ==> FrontRight(headers[r.h], marks[r.h], homes))
    case Based(r, base) => r.Fronted? && ReaderOk(r, x, headers, marks, homes) && base == Base(r.last)
    case Holding(b) => x / 32 < |homes| && b == homes[x / 32]
  }

  ghost predicate AllOnTrack(s: State) {
    forall x {:trigger OnTrack(s.claims[x], x, s.headers, s.marks, Shown(s))} :: x in s.claims ==>
      OnTrack(s.claims[x], x, s.headers, s.marks, Shown(s))
  }

  ghost predicate ClaimInv(s: State, kept: nat) {
    && s.head <= s.tail <= 32 * s.exposed && s.exposed <= |s.homes|
    && (!s.producer.Quiet? || s.exposed < |s.homes| ==> Blocks(s.tail) == s.exposed)
    && (forall x :: x in s.done ==> x < s.head)
    && (forall x :: x in s.claims ==> x < s.head && x !in s.done)
    && (forall x: nat :: x < s.head && x !in s.claims ==> x in s.done)
    && (forall x: nat :: x < 32 * kept ==> x in s.done)
    && (s.producer == Checked(true) ==> NextIsEmpty(s))
  }

  /** The blocks of the ring are different, and the block about to be entered is none of those in use. */
  ghost predicate RingInv(s: State) {
    && (forall n, m :: s.low <= n < m < |s.homes| ==> s.homes[n] != s.homes[m])
    && (forall i, j :: 0 <= i < j < |s.spares| ==> s.spares[i] != s.spares[j])
    && (forall n, i :: s.low <= n < |s.homes| && 0 <= i < |s.spares| ==> s.homes[n] != s.spares[i])
    && (Starting(s.producer) ==>
          && (forall n :: s.low <= n < |s.homes| ==> s.homes[n] != s.producer.b)
          && s.producer.b !in s.spares)
  }

  /** The ring has `extra` blocks that pr_blockIndexSlotsUsed does not count. */
  predicate Counted(s: State, extra: nat) {
    && |s.spares| + |s.homes| + More(s.producer) == s.used + s.low + extra
    && |s.spares| + Reused(s) <= s.low + extra
  }

  ghost predicate Inv(s: State, kept: nat) { IndexInv(s, kept) && AllOnTrack(s) && ClaimInv(s, kept) && RingInv(s) }

  /** The block of an element that has not been taken is in the window of the index, and exposed. */
  lemma LiveBlock(s: State, kept: nat, x: nat)
    requires ClaimInv(s, kept) && x in s.claims
    ensures kept <= x / 32 < s.exposed <= |s.homes|
  {}

  lemma KeptExposed(s: State, kept: nat)
    requires ClaimInv(s, kept)
    ensures kept <= s.exposed
  {
    assert 32 * s.exposed !in s.done;
  }

  // ----- Consumers -----

  lemma OthersOnTrack(s: State, s': State, x: nat)
    requires AllOnTrack(s) && s'.headers == s.headers && s'.marks == s.marks && Shown(s') == Shown(s)
    requires forall y :: y in s'.claims && y != x ==> y in s.claims && s'.claims[y] == s.claims[y]
    requires x in s'.claims ==> OnTrack(s'.claims[x], x, s.headers, s.marks, Shown(s))
    ensures AllOnTrack(s')
  {
    hide OnTrack, Shown;
    forall y {:trigger OnTrack(s'.claims[y], y, s.headers, s.marks, Shown(s'))} | y in s'.claims
      ensures OnTrack(s'.claims[y], y, s.headers, s.marks, Shown(s'))
    {
      if y != x { assert OnTrack(s.claims[y], y, s.headers, s.marks, Shown(s)); }
    }
  }

  lemma PreserveMove(s: State, kept: nat, x: nat, c: Consumer)
    requires Inv(s, kept) && x in s.claims && OnTrack(c, x, s.headers, s.marks, Shown(s))
    ensures Inv(At(s, x, c), kept)
  {
    hide CurrentOk, OnTrack, SizeOk;
    OthersOnTrack(s, At(s, x, c), x);
  }

  lemma PreserveClaim(s: State, kept: nat)
    requires Inv(s, kept) && s.head < s.tail
    ensures Inv(At(s, s.head, Claimed).(head := s.head + 1), kept)
  {
    hide CurrentOk, ReaderOk, SizeOk;
    OthersOnTrack(s, At(s, s.head, Claimed).(head := s.head + 1), s.head);
  }

  /** The entries of the blocks that may still be read are in the current index, also while the producer is writing. */
  lemma CurrentEntry(s: State, kept: nat, n: nat)
    requires IndexInv(s, kept) && kept <= n < |s.homes|
    ensures s.headers != [] && |s.marks| == |s.headers| && EntryAt(Last(s), s.marks[|s.headers| - 1], s.homes, n)
    ensures s.exposed > 0 ==> s.marks[|s.headers| - 1].last == Bound(s) - 1 && s.exposed <= Bound(s) <= |s.homes|
  {}

  lemma ShownEntry(s: State, h: Header, k: Mark, n: nat)
    requires EntryAt(h, k, s.homes, n) && n < Bound(s) <= |s.homes|
    ensures EntryAt(h, k, Shown(s), n)
  {}

  lemma PreserveLoadIndex(s: State, kept: nat, x: nat)
    requires Inv(s, kept) && ConsumerEnabled(s, LoadIndex(x))
    ensures Inv(ConsumerStep(s, LoadIndex(x)), kept)
  {
    hide EntryAt;
    LiveBlock(s, kept, x);
    CurrentEntry(s, kept, x / 32);
    ShownEntry(s, Last(s), s.marks[|s.headers| - 1], x / 32);
    hide IndexInv, RingInv, ClaimInv;
    PreserveMove(s, kept, x, Looking(Loaded(|s.headers| - 1)));
  }

  /** The front that a consumer loads leads to an entry of a block that is not older than its own. */
  lemma FrontSeen(s: State, kept: nat, x: nat, h: nat)
    requires IndexInv(s, kept) && kept <= x / 32 < s.exposed
    requires OnTrack(Looking(Loaded(h)), x, s.headers, s.marks, Shown(s))
    ensures ReaderOk(Fronted(h, s.headers[h].front, s.marks[h].last), x, s.headers, s.marks, Shown(s))
  {
    if h == |s.headers| - 1 {
      CurrentEntry(s, kept, x / 32);
      CurrentEntry(s, kept, s.marks[h].last);
      ShownEntry(s, s.headers[h], s.marks[h], s.marks[h].last);
    }
  }

  lemma PreserveLoadFront(s: State, kept: nat, x: nat)
    requires Inv(s, kept) && ConsumerEnabled(s, LoadFront(x))
    ensures Inv(ConsumerStep(s, LoadFront(x)), kept)
  {
    LiveBlock(s, kept, x);
    assert OnTrack(s.claims[x], x, s.headers, s.marks, Shown(s));
    var h := s.claims[x].r.h;
    FrontSeen(s, kept, x, h);
    hide IndexInv, RingInv, ClaimInv;
    PreserveMove(s, kept, x, Looking(Fronted(h, s.headers[h].front, s.marks[h].last)));
  }

  lemma PreserveLoadBase(s: State, kept: nat, x: nat)
    requires Inv(s, kept) && ConsumerEnabled(s, LoadBase(x))
    ensures Inv(ConsumerStep(s, LoadBase(x)), kept)
  {
    hide IndexInv, RingInv, ClaimInv;
    assert OnTrack(s.claims[x], x, s.headers, s.marks, Shown(s));
    var r := s.claims[x].r;
    PreserveMove(s, kept, x, Based(r, s.headers[r.h].entries[r.slot].base));
  }

  lemma Sizes(s: State, kept: nat, h: nat)
    requires IndexInv(s, kept) && h < |s.headers|
    ensures |s.marks| == |s.headers| && SizeOk(s.headers[h], s.marks[h])
  {
    hide CurrentOk;
  }

  /** The slot of a block, computed from the base in a slot whose block is known. */
  lemma SlotFound(h: Header, k: Mark, homes: seq<nat>, x: nat, slot: nat, last: nat)
    requires SizeOk(h, k) && EntryAt(h, k, homes, x / 32) && k.origin <= last && slot == Slot(last - k.origin, h.size)
    ensures SourceSlot(slot, BlockStart(D.Wrap(x)), Base(last), h.size) == Slot(x / 32 - k.origin, h.size)
  {
    hide Base, Slot, SourceSlot, D.Wrap, Pow2;
    WrapBlock(x);
    LookupSlot(x / 32 - k.origin, last - k.origin, k.origin, h.size, k.order);
  }

  /** The lookup of a consumer ends at the entry of its own block. */
  lemma BlockSeen(s: State, kept: nat, x: nat, r: Reader)
    requires IndexInv(s, kept) && r.Fronted? && ReaderOk(r, x, s.headers, s.marks, Shown(s))
    ensures 0 < s.headers[r.h].size == |s.headers[r.h].entries| && r.slot < |s.headers[r.h].entries|
    ensures s.headers[r.h].entries[r.slot].base == Base(r.last)
    ensures var h := s.headers[r.h]; var i := SourceSlot(r.slot, BlockStart(D.Wrap(x)), Base(r.last), h.size);
      x / 32 < |s.homes| && i == Slot(x / 32 - s.marks[r.h].origin, h.size)
      && h.entries[i] == Entry(Base(x / 32), s.homes[x / 32])
  {
    hide SourceSlot;
    Sizes(s, kept, r.h);
    hide IndexInv;
    SlotFound(s.headers[r.h], s.marks[r.h], Shown(s), x, r.slot, r.last);
  }

  lemma PreserveLoadBlock(s: State, kept: nat, x: nat)
    requires Inv(s, kept) && ConsumerEnabled(s, LoadBlock(x))
    ensures Inv(ConsumerStep(s, LoadBlock(x)), kept)
  {
    hide SourceSlot;
    LiveBlock(s, kept, x);
    assert OnTrack(s.claims[x], x, s.headers, s.marks, Shown(s));
    BlockSeen(s, kept, x, s.claims[x].r);
    hide IndexInv, RingInv, ClaimInv;
    PreserveMove(s, kept, x, Holding(s.homes[x / 32]));
  }

  lemma PreserveTake(s: State, kept: nat, x: nat)
    requires Inv(s, kept) && ConsumerEnabled(s, Take(x))
    ensures Inv(ConsumerStep(s, Take(x)), kept)
  {
    hide CurrentOk, OnTrack, SizeOk;
    OthersOnTrack(s, ConsumerStep(s, Take(x)), x);
  }

  // ----- The producer -----

  lemma SameTrack(s: State, s': State)
    requires AllOnTrack(s) && s'.claims == s.claims && s'.headers == s.headers && s'.marks == s.marks
    requires Shown(s') == Shown(s)
    ensures AllOnTrack(s')
  {
    hide OnTrack, Shown;
  }

  lemma PreserveCheck(s: State, kept: nat)
    requires Inv(s, kept) && ProducerEnabled(s, Check)
    ensures Inv(ProducerStep(s, Check), kept)
  {
    hide OnTrack, CurrentOk, SizeOk;
    SameTrack(s, ProducerStep(s, Check));
  }

  lemma PreservePublish(s: State, kept: nat, t: nat)
    requires Inv(s, kept) && ProducerEnabled(s, Publish(t))
    ensures Inv(ProducerStep(s, Publish(t)), kept)
  {
    hide OnTrack, CurrentOk, SizeOk;
    SameTrack(s, ProducerStep(s, Publish(t)));
  }

  /** The entries that are kept when the block ahead has been taken: its own is given up. */
  function KeptAhead(s: State, kept: nat): nat { if s.spares == [] && kept <= s.low then s.low + 1 else kept }

  /** A block that is about to be entered: the next one, which is empty, or a new one. */
  lemma PreserveTakeAhead(s: State, kept: nat)
    requires Inv(s, kept) && ProducerEnabled(s, TakeAhead) && |s.homes| < KeptAhead(s, kept) + s.size
    ensures Inv(ProducerStep(s, TakeAhead), KeptAhead(s, kept))
  {
    hide OnTrack, SizeOk, EntryAt;
    AheadClaims(s, kept);
    AheadIndex(s, kept);
    AheadRing(s);
    hide ClaimInv, IndexInv, RingInv;
    assert Shown(ProducerStep(s, TakeAhead)) == Shown(s);
    SameTrack(s, ProducerStep(s, TakeAhead));
  }

  lemma AheadIndex(s: State, kept: nat)
    requires IndexInv(s, kept) && ProducerEnabled(s, TakeAhead) && |s.homes| < KeptAhead(s, kept) + s.size
    requires NextIsEmpty(s)
    ensures IndexInv(ProducerStep(s, TakeAhead), KeptAhead(s, kept))
    ensures Shown(ProducerStep(s, TakeAhead)) == Shown(s)
  {
    hide SizeOk, EntryAt, DrainedBlock;
  }

  lemma AheadRing(s: State)
    requires RingInv(s) && ProducerEnabled(s, TakeAhead)
    ensures RingInv(ProducerStep(s, TakeAhead))
  {}

  lemma AheadClaims(s: State, kept: nat)
    requires ClaimInv(s, kept) && ProducerEnabled(s, TakeAhead) && s.low <= kept
    ensures ClaimInv(ProducerStep(s, TakeAhead), KeptAhead(s, kept))
  {
    forall x: nat | x < 32 * KeptAhead(s, kept) ensures x in s.done {
      assert x < 32 * kept || 32 * s.low <= x;
    }
  }

  lemma PreserveInsert(s: State, kept: nat, b: nat)
    requires Inv(s, kept) && ProducerEnabled(s, Insert(b)) && |s.homes| < kept + s.size
    ensures Inv(ProducerStep(s, Insert(b)), kept)
  {
    hide OnTrack, SizeOk, EntryAt, RingInv;
    SameTrack(s, ProducerStep(s, Insert(b)));
    InsertRing(s, b);
  }

  lemma InsertRing(s: State, b: nat)
    requires RingInv(s) && ProducerEnabled(s, Insert(b))
    ensures RingInv(ProducerStep(s, Insert(b)))
  {
    forall n | s.low <= n < |s.homes| ensures s.homes[n] != b {
      assert s.homes[s.low..][n - s.low] == s.homes[n];
    }
  }

  /** Writing into the slot behind the window leaves the entries that may be read alone. */
  lemma WrittenEntry(h: Header, k: Mark, homes: seq<nat>, n: nat, front: nat, e: Entry, count: nat)
    requires EntryAt(h, k, homes, n) && |homes| <= count < n + h.size && front == Slot(count - k.origin, h.size)
    ensures EntryAt(h.(entries := h.entries[front := e]), k, homes, n)
  {
    SlotDistinct(n - k.origin, count - k.origin, h.size);
  }

  lemma WrittenCurrent(s: State, kept: nat, e: Entry)
    requires IndexInv(s, kept) && Starting(s.producer) && s.front < |Last(s).entries|
    ensures CurrentOk(WithEntry(s, e)[|s.headers| - 1], s.marks[|s.headers| - 1], s.homes, kept, s.size, s.order,
                      s.front, s.exposed, Bound(s))
  {
    hide EntryAt, SizeOk;
    var c := |s.headers| - 1;
    var h, h', k := s.headers[c], WithEntry(s, e)[c], s.marks[c];
    forall n {:trigger EntryAt(h', k, s.homes, n)} | kept <= n < |s.homes| ensures EntryAt(h', k, s.homes, n) {
      assert EntryAt(h, k, s.homes, n);
      WrittenEntry(h, k, s.homes, n, s.front, e, |s.homes|);
    }
  }

  lemma WrittenTrack(s: State, kept: nat, e: Entry)
    requires IndexInv(s, kept) && AllOnTrack(s) && ClaimInv(s, kept) && Starting(s.producer)
    requires s.front < |Last(s).entries|
    ensures forall x :: x in s.claims ==> OnTrack(s.claims[x], x, WithEntry(s, e), s.marks, Shown(s))
  {
    hide ReaderOk, CurrentOk, SizeOk, EntryAt;
    forall x | x in s.claims ensures OnTrack(s.claims[x], x, WithEntry(s, e), s.marks, Shown(s)) {
      assert OnTrack(s.claims[x], x, s.headers, s.marks, Shown(s));
      LiveBlock(s, kept, x);
      if s.claims[x].Looking? { WrittenReader(s, kept, e, x, s.claims[x].r); }
      if s.claims[x].Based? { WrittenReader(s, kept, e, x, s.claims[x].r); }
    }
  }

  lemma WrittenReader(s: State, kept: nat, e: Entry, x: nat, r: Reader)
    requires IndexInv(s, kept) && Starting(s.producer) && s.front < |Last(s).entries|
    requires kept <= x / 32 && ReaderOk(r, x, s.headers, s.marks, Shown(s))
    ensures ReaderOk(r, x, WithEntry(s, e), s.marks, Shown(s))
  {
    hide EntryAt, SizeOk;
    var c := |s.headers| - 1;
    if r.h == c {
      WrittenEntry(s.headers[c], s.marks[c], Shown(s), x / 32, s.front, e, |s.homes|);
      if r.Fronted? { WrittenEntry(s.headers[c], s.marks[c], Shown(s), r.last, s.front, e, |s.homes|); }
    }
  }

  lemma PreserveStoreBase(s: State, kept: nat)
    requires Inv(s, kept) && ProducerEnabled(s, StoreBase)
    ensures Inv(ProducerStep(s, StoreBase), kept)
  {
    hide CurrentOk, OnTrack;
    var s' := ProducerStep(s, StoreBase);
    var e := Last(s).entries[s.front].(base := BulkBase(s.tail, |s.homes| - s.exposed));
    BulkBaseIs(s.tail, |s.homes| - s.exposed);
    hide BulkBase, Base;
    WrittenCurrent(s, kept, e);
    WrittenTrack(s, kept, e);
  }

  lemma PreserveStoreBlock(s: State, kept: nat)
    requires Inv(s, kept) && ProducerEnabled(s, StoreBlock)
    ensures Inv(ProducerStep(s, StoreBlock), kept)
  {
    KeptExposed(s, kept);
    StoredIndex(s, kept);
    StoredTrack(s, kept);
    hide AllOnTrack, ClaimInv, RingInv, CurrentOk, SizeOk, EntryPart;
    StoredRest(s, kept);
  }

  lemma StoredIndex(s: State, kept: nat)
    requires IndexInv(s, kept) && ProducerEnabled(s, StoreBlock) && kept <= s.exposed
    ensures IndexInv(ProducerStep(s, StoreBlock), kept)
  {
    hide CurrentOk, EntryAt;
    var e := Last(s).entries[s.front].(block := s.producer.b);
    WrittenCurrent(s, kept, e);
    EnteredCurrent(s, kept, e);
  }

  lemma StoredTrack(s: State, kept: nat)
    requires IndexInv(s, kept) && AllOnTrack(s) && ClaimInv(s, kept) && ProducerEnabled(s, StoreBlock)
    ensures AllOnTrack(ProducerStep(s, StoreBlock))
  {
    var e := Last(s).entries[s.front].(block := s.producer.b);
    WrittenTrack(s, kept, e);
    EnteredShown(s, kept);
    hide OnTrack, CurrentOk, Shown;
  }

  lemma StoredRest(s: State, kept: nat)
    requires CountsOk(s, kept) && ClaimInv(s, kept) && RingInv(s) && ProducerEnabled(s, StoreBlock)
    ensures ClaimInv(ProducerStep(s, StoreBlock), kept) && RingInv(ProducerStep(s, StoreBlock))
  {}

  lemma EnteredShown(s: State, kept: nat)
    requires CountsOk(s, kept) && s.producer.BaseStored? && ProducerEnabled(s, StoreBlock)
    ensures Shown(ProducerStep(s, StoreBlock)) == Shown(s)
  {
    var s' := ProducerStep(s, StoreBlock);
    assert 0 <= Bound(s) == Bound(s') <= |s.homes| && s'.homes[..Bound(s)] == s.homes[..Bound(s)];
  }

  /** With both fields written the entry is that of the next block. */
  lemma EnteredCurrent(s: State, kept: nat, e: Entry)
    requires IndexInv(s, kept) && s.producer.BaseStored? && s.front < |Last(s).entries|
    requires e == Last(s).entries[s.front].(block := s.producer.b)
    requires CurrentOk(WithEntry(s, e)[|s.headers| - 1], s.marks[|s.headers| - 1], s.homes, kept, s.size, s.order,
                       s.front, s.exposed, Bound(s))
    ensures CurrentOk(WithEntry(s, e)[|s.headers| - 1], s.marks[|s.headers| - 1], s.homes + [s.producer.b], kept,
                      s.size, s.order, NextSlot(s.front, s.size), s.exposed, Bound(s))
  {
    var c := |s.headers| - 1;
    var h, k, homes := WithEntry(s, e)[c], s.marks[c], s.homes + [s.producer.b];
    SlotNext(|s.homes| - k.origin, s.size);
    assert EntryAt(h, k, homes, |s.homes|);
    forall n {:trigger EntryAt(h, k, homes, n)} | kept <= n < |s.homes| ensures EntryAt(h, k, homes, n) {
      assert EntryAt(h, k, s.homes, n);
    }
  }

  lemma PreserveStoreFront(s: State, kept: nat)
    requires Inv(s, kept) && ProducerEnabled(s, StoreFront)
    ensures Inv(ProducerStep(s, StoreFront), kept)
  {
    hide OnTrack, SizeOk, CurrentOk;
    FrontCurrent(s, kept);
    FrontTrack(s, kept);
    FrontSizes(s, kept);
    FrontUndo(s, kept);
  }

  lemma FrontSizes(s: State, kept: nat)
    requires IndexInv(s, kept) && ProducerEnabled(s, StoreFront)
    ensures var s' := ProducerStep(s, StoreFront);
      forall h {:trigger s'.headers[h]} :: 0 <= h < |s'.headers| ==> SizeOk(s'.headers[h], s'.marks[h])
  {
    hide CurrentOk;
  }

  lemma FrontUndo(s: State, kept: nat)
    requires IndexInv(s, kept) && ProducerEnabled(s, StoreFront)
    ensures EntryPart(ProducerStep(s, StoreFront)) && CountsOk(ProducerStep(s, StoreFront), kept)
  {}

  lemma FrontCurrent(s: State, kept: nat)
    requires IndexInv(s, kept) && ProducerEnabled(s, StoreFront)
    ensures var s' := ProducerStep(s, StoreFront);
      CurrentOk(Last(s'), s'.marks[|s.headers| - 1], s'.homes, kept, s'.size, s'.order, s'.front, s'.exposed, Bound(s'))
  {
    var s', c := ProducerStep(s, StoreFront), |s.headers| - 1;
    var h, h', k, k' := s.headers[c], s'.headers[c], s.marks[c], s'.marks[c];
    SlotNext(|s.homes| - 1 - k.origin, s.size);
    forall n {:trigger EntryAt(h', k', s.homes, n)} | kept <= n < |s.homes| ensures EntryAt(h', k', s.homes, n) {
      assert EntryAt(h, k, s.homes, n);
    }
  }

  lemma FrontTrack(s: State, kept: nat)
    requires AllOnTrack(s) && IndexInv(s, kept) && ClaimInv(s, kept) && ProducerEnabled(s, StoreFront)
    ensures AllOnTrack(ProducerStep(s, StoreFront))
  {
    hide OnTrack, Shown;
    var s' := ProducerStep(s, StoreFront);
    forall x {:trigger OnTrack(s'.claims[x], x, s'.headers, s'.marks, Shown(s'))} | x in s'.claims
      ensures OnTrack(s'.claims[x], x, s'.headers, s'.marks, Shown(s'))
    {
      assert OnTrack(s.claims[x], x, s.headers, s.marks, Shown(s));
      LiveBlock(s, kept, x);
      FrontConsumer(s, kept, x, s.claims[x]);
    }
  }

  lemma FrontConsumer(s: State, kept: nat, x: nat, c: Consumer)
    requires IndexInv(s, kept) && ProducerEnabled(s, StoreFront) && x / 32 < s.exposed
    requires OnTrack(c, x, s.headers, s.marks, Shown(s))
    ensures var s' := ProducerStep(s, StoreFront); OnTrack(c, x, s'.headers, s'.marks, Shown(s'))
  {
    hide CurrentOk, SizeOk, Slot;
  }

  // ----- The index grows -----

  lemma CopiedRing(h: Header, k: Mark, homes: seq<nat>, kept: nat, used: nat, front: nat, memory: seq<Entry>)
    requires used == h.size == |h.entries| && 0 < used <= |memory| && used <= |homes| && k.origin <= |homes|
    requires front == Slot(|homes| - k.origin, h.size)
    requires forall n {:trigger EntryAt(h, k, homes, n)} :: kept <= n < |homes| ==> EntryAt(h, k, homes, n)
    ensures forall j :: 0 <= j < used && kept <= |homes| - used + j ==>
      Copied(h, front, used, memory)[j] == Entry(Base(|homes| - used + j), homes[|homes| - used + j])
  {
    var copy := Copied(h, front, used, memory);
    forall j | 0 <= j < used && kept <= |homes| - used + j
      ensures copy[j] == Entry(Base(|homes| - used + j), homes[|homes| - used + j])
    {
      var n := |homes| - used + j;
      assert EntryAt(h, k, homes, n);
      SlotAhead(n - k.origin, used - j, h.size);
    }
  }

  lemma PreserveGrow(s: State, kept: nat, memory: seq<Entry>)
    requires Inv(s, kept) && Counted(s, 0) && ProducerEnabled(s, Grow(memory))
    ensures Inv(ProducerStep(s, Grow(memory)), kept) && Counted(ProducerStep(s, Grow(memory)), 0)
  {
    hide AllOnTrack, RingInv;
    KeptExposed(s, kept);
    hide ClaimInv;
    GrowthIndex(s, kept, memory);
    GrowthTrack(s, kept, memory);
    hide IndexInv;
    GrowthRest(s, kept, memory);
  }

  lemma GrowthRest(s: State, kept: nat, memory: seq<Entry>)
    requires ClaimInv(s, kept) && RingInv(s) && s.added <= s.used <= |memory| && s.producer == Checked(false)
    ensures ClaimInv(Growth(s, memory), kept) && RingInv(Growth(s, memory))
  {}

  lemma GrowthIndex(s: State, kept: nat, memory: seq<Entry>)
    requires IndexInv(s, kept) && Counted(s, 0) && ProducerEnabled(s, Grow(memory)) && kept <= s.exposed
    ensures IndexInv(Growth(s, memory), kept)
  {
    OrderBelow(s.order);
    GrowthCounts(s, kept, memory);
    GrowthEntries(s, kept, memory);
    GrowthWindow(s, kept, memory);
    GrowthUndo(s, kept, memory);
    hide CurrentOk, Copied, Pow2, Slot, EntryPart, CountsOk;
    assert Pow2(s.order + 1) == 2 * Pow2(s.order) by { DoublePower(s.order); }
    GrowthSizes(s, kept, memory);
  }

  lemma GrowthSizes(s: State, kept: nat, memory: seq<Entry>)
    requires IndexInv(s, kept) && ProducerEnabled(s, Grow(memory)) && Pow2(s.order + 1) == 2 * s.size && s.order < 58
    requires |Last(Growth(s, memory)).entries| == 2 * s.size
    ensures var s' := Growth(s, memory);
      forall h {:trigger s'.headers[h]} :: 0 <= h < |s'.headers| ==> SizeOk(s'.headers[h], s'.marks[h])
  {
    hide CurrentOk, Copied, Pow2;
    assert Pow2(s.order) == s.size;
  }

  lemma GrowthCounts(s: State, kept: nat, memory: seq<Entry>)
    requires IndexInv(s, kept) && Counted(s, 0) && ProducerEnabled(s, Grow(memory))
    ensures s.order < 58 && CountsOk(Growth(s, memory), kept) && s.used <= |s.homes|
    ensures s.used - s.added == |s.spares| + Reused(s) + s.exposed - s.low
  {
    hide CurrentOk, Copied, SizeOk;
    OrderBelow(s.order);
    DoublePower(s.order);
  }

  lemma GrowthUndo(s: State, kept: nat, memory: seq<Entry>)
    requires IndexInv(s, kept) && Counted(s, 0) && ProducerEnabled(s, Grow(memory)) && s.used <= |s.homes|
    requires s.used - s.added == |s.spares| + Reused(s) + s.exposed - s.low
    ensures EntryPart(Growth(s, memory))
  {
    hide CurrentOk, Copied, SizeOk;
    SlotSmall(s.used - s.added, 2 * s.size);
  }

  lemma DoublePower(e: nat)
    ensures Pow2(e + 1) == 2 * Pow2(e)
  {}

  lemma CopiedLength(h: Header, front: nat, used: nat, memory: seq<Entry>)
    requires used <= |memory|
    ensures |Copied(h, front, used, memory)| == |memory|
  {}

  /** The new index begins with the entries of the ring. */
  lemma GrowthEntries(s: State, kept: nat, memory: seq<Entry>)
    requires IndexInv(s, kept) && ProducerEnabled(s, Grow(memory)) && s.used <= |s.homes|
    ensures |Last(Growth(s, memory)).entries| == 2 * s.size
    ensures forall j :: 0 <= j < s.used && kept <= |s.homes| - s.used + j ==>
      Last(Growth(s, memory)).entries[j] == Entry(Base(|s.homes| - s.used + j), s.homes[|s.homes| - s.used + j])
  {
    if s.used > 0 {
      WholeRing(s, kept, memory);
      EntriesCopied(s, memory);
      hide IndexInv, CurrentOk, EntryAt, Slot, Copied, Growth, Base;
      CopiedRing(Last(s), s.marks[|s.headers| - 1], s.homes, kept, s.used, s.front, memory);
    } else if s.headers != [] {
      EntriesCopied(s, memory);
    }
  }

  lemma EntriesCopied(s: State, memory: seq<Entry>)
    requires s.headers != [] && s.added <= s.used <= |memory|
    ensures Last(Growth(s, memory)).entries == Copied(Last(s), s.front, s.used, memory)
    ensures |Copied(Last(s), s.front, s.used, memory)| == |memory|
  {
    hide Copied;
    CopiedLength(Last(s), s.front, s.used, memory);
  }

  /** When the index has to grow its entries are all in use. */
  lemma WholeRing(s: State, kept: nat, memory: seq<Entry>)
    requires IndexInv(s, kept) && ProducerEnabled(s, Grow(memory)) && s.used > 0
    ensures s.headers != [] && |s.marks| == |s.headers|
    ensures var h, k := Last(s), s.marks[|s.headers| - 1];
      && s.used == h.size == |h.entries| && s.used <= |memory| && k.origin <= |s.homes|
      && s.front == Slot(|s.homes| - k.origin, h.size)
      && forall n {:trigger EntryAt(h, k, s.homes, n)} :: kept <= n < |s.homes| ==> EntryAt(h, k, s.homes, n)
  {
    hide EntryAt, Slot;
    Sizes(s, kept, |s.headers| - 1);
  }

  lemma GrowthWindow(s: State, kept: nat, memory: seq<Entry>)
    requires IndexInv(s, kept) && Counted(s, 0) && ProducerEnabled(s, Grow(memory)) && s.used <= |s.homes|
    requires |Last(Growth(s, memory)).entries| == 2 * s.size
    requires s.used - s.added == |s.spares| + Reused(s) + s.exposed - s.low
    requires forall j :: 0 <= j < s.used && kept <= |s.homes| - s.used + j ==>
      Last(Growth(s, memory)).entries[j] == Entry(Base(|s.homes| - s.used + j), s.homes[|s.homes| - s.used + j])
    ensures var s' := Growth(s, memory);
      CurrentOk(Last(s'), s'.marks[|s.headers|], s'.homes, kept, s'.size, s'.order, s'.front, s'.exposed, Bound(s'))
  {
    hide Copied, CurrentOk, SizeOk;
    var s' := Growth(s, memory);
    var h, k := Last(s'), s'.marks[|s.headers|];
    GrowthSlots(s.homes, kept, s.used, h, k);
    if s.exposed > 0 {
      SmallWrap(s.used - s.added - 1, s.order);
      SlotSmall(s.used - s.added - 1, h.size);
    }
    SlotSmall(s.used, h.size);
    WindowMeans(s.homes, kept, s.used, h, k, s.exposed, Bound(s'));
  }

  lemma WindowMeans(homes: seq<nat>, kept: nat, used: nat, h: Header, k: Mark, exposed: nat, bound: int)
    requires used <= |homes| && 0 < h.size && k.origin == |homes| - used <= exposed && Slot(used, h.size) == used
    requires exposed > 0 ==> k.last == bound - 1 && k.origin <= k.last && h.front == Slot(k.last - k.origin, h.size)
    requires forall n {:trigger EntryAt(h, k, homes, n)} :: kept <= n < |homes| ==> EntryAt(h, k, homes, n)
    ensures CurrentOk(h, k, homes, kept, h.size, k.order, used, exposed, bound)
  {
    hide EntryAt, Slot;
  }

  lemma GrowthSlots(homes: seq<nat>, kept: nat, used: nat, h: Header, k: Mark)
    requires used <= |homes| && used < h.size == |h.entries| && k.origin == |homes| - used <= kept
    requires forall j ::
               0 <= j < used && kept <= k.origin + j ==> h.entries[j] == Entry(Base(k.origin + j), homes[k.origin + j])
    ensures forall n {:trigger EntryAt(h, k, homes, n)} :: kept <= n < |homes| ==> EntryAt(h, k, homes, n)
  {
    hide Base;
    forall n {:trigger EntryAt(h, k, homes, n)} | kept <= n < |homes| ensures EntryAt(h, k, homes, n) {
      SlotSmall(n - k.origin, h.size);
      assert h.entries[n - k.origin] == Entry(Base(k.origin + (n - k.origin)), homes[n]);
    }
  }

  lemma SmallWrap(n: nat, order: nat)
    requires n < Pow2(order) && order <= 58
    ensures D.Wrap(n) == n
  {
    SizeBound(order);
    ModUnique(n, 0, n, WORD64);
  }

  /** Readers of the index that is replaced find its front right. */
  lemma GrowthTrack(s: State, kept: nat, memory: seq<Entry>)
    requires AllOnTrack(s) && IndexInv(s, kept) && ClaimInv(s, kept) && ProducerEnabled(s, Grow(memory))
    ensures AllOnTrack(Growth(s, memory))
  {
    hide ReaderOk, CurrentOk, SizeOk, EntryAt, FrontRight;
    var s' := Growth(s, memory);
    assert Shown(s) <= Shown(s');
    forall x {:trigger OnTrack(s'.claims[x], x, s'.headers, s'.marks, Shown(s'))} | x in s'.claims
      ensures OnTrack(s'.claims[x], x, s'.headers, s'.marks, Shown(s'))
    {
      assert OnTrack(s.claims[x], x, s.headers, s.marks, Shown(s));
      LiveBlock(s, kept, x);
      if s.claims[x].Looking? {
        LongerReader(s.claims[x].r, x, s.headers, s.marks, Shown(s), s'.headers, s'.marks, Shown(s'));
        if s.claims[x].r.Loaded? { FrontKnown(s, kept, x, s.claims[x].r.h, Shown(s')); }
      }
      if s.claims[x].Based? {
        LongerReader(s.claims[x].r, x, s.headers, s.marks, Shown(s), s'.headers, s'.marks, Shown(s'));
      }
    }
  }

  lemma FrontKnown(s: State, kept: nat, x: nat, h: nat, shown: seq<nat>)
    requires IndexInv(s, kept) && kept <= x / 32 < s.exposed
    requires OnTrack(Looking(Loaded(h)), x, s.headers, s.marks, Shown(s))
    requires Shown(s) <= shown
    ensures h < |s.headers| == |s.marks| && FrontRight(s.headers[h], s.marks[h], shown)
  {
    if h == |s.headers| - 1 {
      CurrentEntry(s, kept, s.marks[h].last);
      ShownEntry(s, s.headers[h], s.marks[h], s.marks[h].last);
    }
  }

  lemma LongerReader(
    r: Reader, x: nat, headers: seq<Header>, marks: seq<Mark>, homes: seq<nat>, headers': seq<Header>,
    marks': seq<Mark>, homes': seq<nat>)
    requires ReaderOk(r, x, headers, marks, homes) && headers <= headers' && marks <= marks' && |headers'| == |marks'|
    requires homes <= homes'
    ensures ReaderOk(r, x, headers', marks', homes')
    ensures r.h < |headers| == |marks| && headers'[r.h] == headers[r.h] && marks'[r.h] == marks[r.h]
  {
  }

  // ----- An operation gives up -----

  function KeptAfter(s: State, kept: nat): nat { if Shifted(s) then s.exposed else kept }

  /** All that an operation that gives up can leave behind is blocks that are not counted, unless the index is
      shifted. */
  lemma PreserveRefuse(s: State, kept: nat, ring: seq<nat>)
    requires Inv(s, kept) && Counted(s, 0) && ProducerEnabled(s, Refuse(ring)) && (Shifted(s) ==> Idle(s))
    ensures Inv(Refused(s, ring), KeptAfter(s, kept)) && Counted(Refused(s, ring), s.added)
  {
    RingLength(s, kept, ring);
    KeptExposed(s, kept);
    if Shifted(s) {
      ShiftedIndex(s, kept, ring);
    } else {
      RefusedIndex(s, kept, ring);
    }
    RefusedTrack(s, kept, ring);
    hide IndexInv, AllOnTrack;
    RefusedRing(s, ring);
    RefusedClaims(s, kept, ring);
  }

  lemma RingLength(s: State, kept: nat, ring: seq<nat>)
    requires IndexInv(s, kept) && Counted(s, 0) && ProducerEnabled(s, Refuse(ring))
    ensures |ring| == |s.spares| + Reused(s) + s.added && Counted(Refused(s, ring), s.added)
    ensures s.used - s.added == |s.spares| + Reused(s) + s.exposed - s.low
  {
    var all := s.homes[s.exposed..] + s.spares;
    assert |multiset(ring)| == |ring| && |multiset(all)| == |all|;
  }

  lemma RefusedIndex(s: State, kept: nat, ring: seq<nat>)
    requires IndexInv(s, kept) && Counted(s, 0) && ProducerEnabled(s, Refuse(ring)) && !Shifted(s) && kept <= s.exposed
    requires |ring| == |s.spares| + Reused(s) + s.added
    ensures IndexInv(Refused(s, ring), kept)
  {
    hide SizeOk;
    var s' := Refused(s, ring);
    if s.headers != [] {
      var h, k := Last(s), s.marks[|s.headers| - 1];
      forall n {:trigger EntryAt(h, k, s'.homes, n)} | kept <= n < |s'.homes| ensures EntryAt(h, k, s'.homes, n) {
        assert EntryAt(h, k, s.homes, n);
      }
    }
  }

  /** When every block before has been emptied the new front can be what the numbers of the entries are counted from. */
  lemma ShiftedIndex(s: State, kept: nat, ring: seq<nat>)
    requires IndexInv(s, kept) && Counted(s, 0) && ProducerEnabled(s, Refuse(ring)) && Shifted(s) && Idle(s)
    requires |ring| == |s.spares| + Reused(s) + s.added
    requires s.used - s.added == |s.spares| + Reused(s) + s.exposed - s.low
    ensures IndexInv(Refused(s, ring), s.exposed)
  {
    hide SizeOk, EntryAt;
    var s' := Refused(s, ring);
    var k := s.marks[|s.marks| - 1];
    SlotSmall(s.undo, s.size);
    SlotSmall(s.undo - 1, s.size);
    ShiftedSizes(s, kept, ring);
  }

  lemma ShiftedSizes(s: State, kept: nat, ring: seq<nat>)
    requires IndexInv(s, kept) && ProducerEnabled(s, Refuse(ring))
    ensures var s' := Refused(s, ring);
      |s'.marks| == |s'.headers| &&
      forall h {:trigger s'.headers[h]} :: 0 <= h < |s'.headers| ==> SizeOk(s'.headers[h], s'.marks[h])
  {
    hide CurrentOk;
  }

  lemma RefusedTrack(s: State, kept: nat, ring: seq<nat>)
    requires AllOnTrack(s) && CountsOk(s, kept) && ClaimInv(s, kept) && ProducerEnabled(s, Refuse(ring))
    requires Shifted(s) ==> Idle(s)
    ensures AllOnTrack(Refused(s, ring))
  {
    if Shifted(s) {
      IdleMeans(s, kept);
    } else {
      hide OnTrack;
      var s' := Refused(s, ring);
      assert Bound(s) == s.exposed == Bound(s') && s'.homes[..s.exposed] == s.homes[..s.exposed];
      SameTrack(s, s');
    }
  }

  lemma IdleMeans(s: State, kept: nat)
    requires ClaimInv(s, kept) && Idle(s) && s.low <= kept
    ensures s.claims == map[] && forall x: nat :: x < 32 * s.exposed ==> x in s.done
  {
    forall x: nat | x < 32 * s.exposed ensures x in s.done {
      if x >= 32 * kept { assert DrainedBlock(s.done, x / 32); }
    }
    forall x: nat ensures x !in s.claims { assert x < 32 * s.exposed ==> x in s.done; }
  }

  lemma RefusedRing(s: State, ring: seq<nat>)
    requires RingInv(s) && ProducerEnabled(s, Refuse(ring)) && s.low <= s.exposed
    ensures RingInv(Refused(s, ring))
  {
    var all := s.homes[s.exposed..] + s.spares;
    StartedAndSpares(s);
    CountsMeanDistinct(all);
    CountsMeanDistinct(ring);
    forall n, i | s.low <= n < s.exposed && 0 <= i < |ring| ensures s.homes[n] != ring[i] {
      assert ring[i] in multiset(all);
    }
  }

  /** The blocks started by the operation under way and those left behind before are different, and none of the
      others. */
  lemma StartedAndSpares(s: State)
    requires RingInv(s) && s.low <= s.exposed <= |s.homes|
    ensures var all := s.homes[s.exposed..] + s.spares;
      && (forall i, j :: 0 <= i < j < |all| ==> all[i] != all[j])
      && forall n :: s.low <= n < s.exposed ==> s.homes[n] !in all
  {
    var all := s.homes[s.exposed..] + s.spares;
    forall i, j | 0 <= i < j < |all| ensures all[i] != all[j] {
      assert i < |s.homes| - s.exposed ==> all[i] == s.homes[s.exposed + i];
      assert j < |s.homes| - s.exposed ==> all[j] == s.homes[s.exposed + j];
    }
    forall n | s.low <= n < s.exposed ensures s.homes[n] !in all {
      forall j | 0 <= j < |all| ensures all[j] != s.homes[n] {
        assert j < |s.homes| - s.exposed ==> all[j] == s.homes[s.exposed + j];
      }
    }
  }

  lemma {:induction false} CountsMeanDistinct(t: seq<nat>)
    ensures (forall i, j :: 0 <= i < j < |t| ==> t[i] != t[j]) <==> forall x :: multiset(t)[x] <= 1
  {
    if t != [] {
      var last := |t| - 1;
      var p := t[..last];
      CountsMeanDistinct(p);
      assert t == p + [t[last]];
      assert forall x :: multiset(t)[x] == multiset(p)[x] + (if x == t[last] then 1 else 0);
      assert t[last] in p <==> multiset(p)[t[last]] >= 1;
      assert forall i :: 0 <= i < last ==> p[i] == t[i];
      assert (exists i :: 0 <= i < last && t[i] == t[last]) <==> t[last] in p;
    }
  }

  lemma RefusedClaims(s: State, kept: nat, ring: seq<nat>)
    requires ClaimInv(s, kept) && ProducerEnabled(s, Refuse(ring)) && (Shifted(s) ==> Idle(s)) && s.low <= kept
    ensures ClaimInv(Refused(s, ring), KeptAfter(s, kept))
  {
    if Shifted(s) { IdleMeans(s, kept); }
  }

  // ----- Runs -----

  lemma CountedKept(s: State, extra: nat, a: Action)
    requires Counted(s, extra) && ProducerEnabled(s, a) && !a.Refuse? && 0 <= Reused(s)
    ensures Counted(ProducerStep(s, a), extra)
  {}

  /** As long as all blocks of the ring are counted there is room in the index for those that may still be read. */
  lemma RoomWhenCounted(s: State, kept: nat)
    requires CountsOk(s, kept) && Counted(s, 0) && (s.producer == Checked(true) ==> NextIsEmpty(s))
    ensures ProducerEnabled(s, TakeAhead) ==> |s.homes| < KeptAhead(s, kept) + s.size
    ensures s.producer == Checked(false) && s.used < s.size ==> |s.homes| < kept + s.size
  {}

  lemma PreserveStep(p: State, kept: nat, a: Action, s: State) returns (kept': nat)
    requires Inv(p, kept) && Counted(p, 0) && Sound(p, a) && Follows(p, a, s)
    ensures Inv(s, kept') && Counted(s, 0)
  {
    hide Inv;
    if ProducerEnabled(p, a) && s == ProducerStep(p, a) {
      kept' := PreserveProducer(p, kept, a);
    } else {
      PreserveConsumer(p, kept, a);
      kept' := kept;
    }
  }

  lemma PreserveProducer(s: State, kept: nat, a: Action) returns (kept': nat)
    requires Inv(s, kept) && Counted(s, 0) && ProducerEnabled(s, a) && Sound(s, a)
    ensures Inv(ProducerStep(s, a), kept') && Counted(ProducerStep(s, a), 0)
  {
    kept' := if a.TakeAhead? then KeptAhead(s, kept) else if a.Refuse? then KeptAfter(s, kept) else kept;
    Rooms(s, kept, a);
    hide Inv, ProducerStep, Counted, Harmless;
    match a
    case Check => PreserveCheck(s, kept);
    case TakeAhead => PreserveTakeAhead(s, kept);
    case Refuse(ring) =>
    case Grow(memory) => PreserveGrow(s, kept, memory);
    case Insert(b) => PreserveInsert(s, kept, b);
    case StoreBase => PreserveStoreBase(s, kept);
    case StoreBlock => PreserveStoreBlock(s, kept);
    case StoreFront => PreserveStoreFront(s, kept);
    case Publish(t) => PreservePublish(s, kept, t);
    case _ =>
  }

  lemma Rooms(s: State, kept: nat, a: Action)
    requires Inv(s, kept) && Counted(s, 0) && ProducerEnabled(s, a) && Sound(s, a)
    ensures a.TakeAhead? ==> |s.homes| < KeptAhead(s, kept) + s.size
    ensures a.Insert? ==> |s.homes| < kept + s.size
    ensures Counted(ProducerStep(s, a), 0)
    ensures a.Refuse? ==> Inv(ProducerStep(s, a), KeptAfter(s, kept))
  {
    if a.Refuse? {
      PreserveRefuse(s, kept, a.ring);
    } else {
      hide AllOnTrack, RingInv, CurrentOk, SizeOk;
      RoomWhenCounted(s, kept);
      CountedKept(s, 0, a);
    }
  }

  lemma PreserveConsumer(s: State, kept: nat, a: Action)
    requires Inv(s, kept) && ConsumerEnabled(s, a)
    ensures Inv(ConsumerStep(s, a), kept)
    ensures Counted(s, 0) ==> Counted(ConsumerStep(s, a), 0)
  {
    hide Inv;
    match a
    case Claim => PreserveClaim(s, kept);
    case LoadIndex(x) => PreserveLoadIndex(s, kept, x);
    case LoadFront(x) => PreserveLoadFront(s, kept, x);
    case LoadBase(x) => PreserveLoadBase(s, kept, x);
    case LoadBlock(x) => PreserveLoadBlock(s, kept, x);
    case Take(x) => PreserveTake(s, kept, x);
    case _ =>
  }

  lemma InitInv(s: State, order: nat, memory: seq<Entry>, ok: bool, slot: nat)
    requires Init(s, order, memory, ok, slot)
    ensures Inv(s, 0) && Counted(s, 0)
  {
    SlotSmall(0, Pow2(order));
  }

  lemma {:induction false} RunInv(run: Trace<Action>, s: State) returns (kept: nat)
    requires Reaches(run, s)
    ensures Inv(s, kept) && Counted(s, 0)
  {
    hide Inv, Follows, Sound, Counted;
    match run
    case Start =>
      var order: nat, memory: seq<Entry>, ok: bool, slot: nat :| Init(s, order, memory, ok, slot);
      InitInv(s, order, memory, ok, slot);
      kept := 0;
    case Then(before, a) =>
      var p :| Reaches(before, p) && Sound(p, a) && Follows(p, a, s);
      var earlier := RunInv(before, p);
      kept := PreserveStep(p, earlier, a, s);
  }

  lemma ReachableInv(s: State) returns (kept: nat)
    requires Reachable(s)
    ensures Inv(s, kept) && Counted(s, 0)
  {
    hide Inv;
    var run :| Reaches(run, s);
    kept := RunInv(run, s);
  }

  // ----- What holds in every run -----

  /** The block that a consumer loads, through an index, a front and a base that may all be out of date, is the one its
      element was put in. */
  lemma LookupExact(s: State, x: nat)
    requires Reachable(s) && x in s.claims && s.claims[x].Based?
    ensures s.claims[x].r.Fronted? && s.claims[x].r.h < |s.headers| && x / 32 < |s.homes|
    ensures var es := s.headers[s.claims[x].r.h].entries;
      FoundSlot(s, x) < |es| && es[FoundSlot(s, x)] == Entry(Base(x / 32), s.homes[x / 32])
  {
    var kept := ReachableInv(s);
    hide IndexInv, ClaimInv, RingInv, SourceSlot;
    LiveBlock(s, kept, x);
    assert OnTrack(s.claims[x], x, s.headers, s.marks, Shown(s));
    BlockSeen(s, kept, x, s.claims[x].r);
  }

  /** A bulk dequeue looks up the block of its first element only, and walks on from there: that leads to the slots that
      its other elements would have been looked up in. */
  lemma BulkWalk(s: State, x: nat, y: nat)
    requires Reachable(s) && x in s.claims && y in s.claims && x <= y && s.claims[x].Based?
    requires s.claims[y] == s.claims[x]
    ensures s.claims[x].r.Fronted? && s.claims[x].r.h < |s.headers| && y / 32 < |s.homes|
    ensures var h := s.headers[s.claims[x].r.h]; var i := Walk(FoundSlot(s, x), y / 32 - x / 32, h.size);
      i < |h.entries| && i == FoundSlot(s, y) && h.entries[i] == Entry(Base(y / 32), s.homes[y / 32])
  {
    hide IndexInv, ClaimInv, RingInv, SourceSlot, Walk, Slot;
    LookupExact(s, y);
    var kept := ReachableInv(s);
    LiveBlock(s, kept, y);
    assert OnTrack(s.claims[x], x, s.headers, s.marks, Shown(s));
    assert OnTrack(s.claims[y], y, s.headers, s.marks, Shown(s));
    BlockSeen(s, kept, x, s.claims[x].r);
    BlockSeen(s, kept, y, s.claims[x].r);
    WalkReaches(x / 32 - s.marks[s.claims[x].r.h].origin, y / 32 - x / 32, s.headers[s.claims[x].r.h].size);
  }

  /** A block is only taken again when no consumer will read it any more: it is that of no element that has not been
      taken, and the elements that were in it last have all been taken. */
  lemma ReusedWhenEmpty(s: State, x: nat)
    requires Reachable(s) && ProducerEnabled(s, TakeAhead) && x < s.tail && x !in s.done
    ensures s.low <= x / 32 < |s.homes| && s.homes[x / 32] != ProducerStep(s, TakeAhead).producer.b
    ensures s.spares == [] ==> forall y :: 32 * s.low <= y < 32 * s.low + 32 ==> y in s.done && y !in s.claims
  {
    var kept := ReachableInv(s);
    hide AllOnTrack, CurrentOk, SizeOk;
    assert s.spares == [] ==> x / 32 != s.low;
  }

  /** The block that a consumer holds is not the one the producer is about to enter. */
  lemma HeldBlockStays(s: State, x: nat)
    requires Reachable(s) && x in s.claims && s.claims[x].Holding? && Starting(s.producer)
    ensures x / 32 < |s.homes| && s.claims[x].b == s.homes[x / 32] != s.producer.b
  {
    var kept := ReachableInv(s);
    hide CurrentOk, SizeOk;
    LiveBlock(s, kept, x);
    assert OnTrack(s.claims[x], x, s.headers, s.marks, Shown(s));
  }

  /** What a consumer does next. */
  function NextOf(c: Consumer, x: nat): Action {
    match c
    case Claimed => LoadIndex(x)
    case Looking(r) => if r.Loaded? then LoadFront(x) else LoadBase(x)
    case Based(_, _) => LoadBlock(x)
    case Holding(_) => Take(x)
  }

  /** A consumer that has claimed an element can always take its next step. */
  lemma NeverStuck(s: State, x: nat)
    requires Reachable(s) && x in s.claims
    ensures ConsumerEnabled(s, NextOf(s.claims[x], x))
  {
    hide ClaimInv, RingInv, SourceSlot;
    var kept := ReachableInv(s);
    LiveBlock(s, kept, x);
    CurrentEntry(s, kept, x / 32);
    hide IndexInv, EntryAt;
    var c := s.claims[x];
    assert OnTrack(c, x, s.headers, s.marks, Shown(s));
    if c.Looking? && c.r.Fronted? { BlockSeen(s, kept, x, c.r); }
    if c.Based? { BlockSeen(s, kept, x, c.r); }
  }
}
