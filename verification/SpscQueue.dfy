/** ReaderWriterQueue of readerwriterqueue.h under one producer thread and one consumer thread: a ring of
    circular buffers. Every access to a variable the other thread may write is a step of its own, and so is
    every store of a shared index or pointer; variables only one thread touches are read along with them. */
module SpscQueue {
  import opened Prelude

  type BlockId = nat

  /** localTail is the consumer's copy of tail, localFront the producer's copy of front; both may be stale. */
  datatype Block<T> = Block(front: nat, localTail: nat, tail: nat, localFront: nat, next: BlockId, data: seq<Option<T>>)

  datatype ProducerPc<T> =
    | ProducerIdle
    | CheckRoom(v: T, canAlloc: bool)
    | ReloadFront(v: T, canAlloc: bool)
    | WriteElement(v: T)
    | PublishTail(v: T)
    | CheckNext(v: T, canAlloc: bool)
    | EnterNext(v: T)
    | WriteInNext(v: T, block: BlockId)
    | PublishInNext(v: T, block: BlockId)
    | AllocateBlock(v: T)
    | LinkBlock(v: T, block: BlockId)
    | AdvanceTail(v: T, block: BlockId)

  /** try_dequeue, pop and peek follow the same path; peek changes nothing. */
  datatype Mode = TryDequeue | Pop | Peek

  datatype ConsumerPc<T> =
    | ConsumerIdle
    | CheckFront(mode: Mode)
    | ReloadTail(mode: Mode)
    | LoadTailBlock(mode: Mode, mark: nat)
    | RecheckFront(mode: Mode)
    | LoadNext(mode: Mode)
    | CheckNextBlock(mode: Mode, block: BlockId)
    | AdvanceFront(mode: Mode, block: BlockId)
    | ReadElement(mode: Mode)
    | PublishFront(mode: Mode, x: T)

  /** `enqueued` and `dequeued` log the values in the order the operations took effect; LoadTailBlock's
      mark remembers how many had been enqueued when the front block was last seen empty. */
  datatype State<T> = State(
    blocks: map<BlockId, Block<T>>, frontBlock: BlockId, tailBlock: BlockId,
    producer: ProducerPc<T>, consumer: ConsumerPc<T>,
    enqueued: seq<T>, dequeued: seq<T>)

  datatype Action<T> =
    | CallEnqueue(v: T, canAlloc: bool)
    | CallConsume(mode: Mode)
    | RunProducer
    | RunConsumer
    | Allocate(block: BlockId, size: nat)
    | AllocationFails

  predicate BlockUsable<T>(s: State<T>, id: BlockId) {
    id in s.blocks && s.blocks[id].front < |s.blocks[id].data| && s.blocks[id].tail < |s.blocks[id].data|
  }

  predicate Enabled<T>(s: State<T>, a: Action<T>) {
    match a
    case CallEnqueue(_, _) => s.producer.ProducerIdle?
    case CallConsume(_) => s.consumer.ConsumerIdle?
    case RunProducer =>
      && !s.producer.ProducerIdle? && !s.producer.AllocateBlock? && BlockUsable(s, s.tailBlock)
      && (s.producer.EnterNext? ==> BlockUsable(s, s.blocks[s.tailBlock].next))
      && (s.producer.WriteInNext? || s.producer.PublishInNext? ==> BlockUsable(s, s.producer.block))
    case RunConsumer =>
      && !s.consumer.ConsumerIdle? && BlockUsable(s, s.frontBlock)
      && (s.consumer.CheckNextBlock? ==> BlockUsable(s, s.consumer.block))
      && (s.consumer.ReadElement? ==> s.blocks[s.frontBlock].data[s.blocks[s.frontBlock].front].Some?)
    case Allocate(block, size) =>
      s.producer.AllocateBlock? && block !in s.blocks && size >= 2 && s.tailBlock in s.blocks
    case AllocationFails => s.producer.AllocateBlock?
  }

  function Step<T>(s: State<T>, a: Action<T>): State<T>
    requires Enabled(s, a)
  {
    match a
    case CallEnqueue(v, canAlloc) => s.(producer := CheckRoom(v, canAlloc))
    case CallConsume(mode) => s.(consumer := CheckFront(mode))
    case RunProducer => Produce(s)
    case RunConsumer => Consume(s)
    case Allocate(block, size) =>
      var v := s.producer.v;
      var data := [Some(v)] + seq(size - 1, _ => None);
      s.(blocks := s.blocks[block := Block(0, 1, 1, 0, s.blocks[s.tailBlock].next, data)],
         producer := LinkBlock(v, block))
    case AllocationFails => s.(producer := ProducerIdle)
  }

  /** inner_enqueue */
  function Produce<T>(s: State<T>): State<T>
    requires Enabled(s, RunProducer)
  {
    var id := s.tailBlock;
    var b := s.blocks[id];
    var nextTail := NextSlot(b.tail, |b.data|);
    match s.producer
    case CheckRoom(v, canAlloc) =>
      s.(producer := if nextTail != b.localFront then WriteElement(v) else ReloadFront(v, canAlloc))
    case ReloadFront(v, canAlloc) =>
      s.(blocks := s.blocks[id := b.(localFront := b.front)],
         producer := if nextTail != b.front then WriteElement(v) else CheckNext(v, canAlloc))
    case WriteElement(v) =>
      s.(blocks := s.blocks[id := b.(data := b.data[b.tail := Some(v)])], producer := PublishTail(v))
    case PublishTail(v) =>
      s.(blocks := s.blocks[id := b.(tail := nextTail)], producer := ProducerIdle, enqueued := s.enqueued + [v])
    case CheckNext(v, canAlloc) =>
      s.(producer := if b.next != s.frontBlock then EnterNext(v)
                     else if canAlloc then AllocateBlock(v) else ProducerIdle)
    case EnterNext(v) =>
      var nb := s.blocks[b.next];
      s.(blocks := s.blocks[b.next := nb.(localFront := nb.front)], producer := WriteInNext(v, b.next))
    case WriteInNext(v, block) =>
      var nb := s.blocks[block];
      s.(blocks := s.blocks[block := nb.(data := nb.data[nb.tail := Some(v)])], producer := PublishInNext(v, block))
    case PublishInNext(v, block) =>
      var nb := s.blocks[block];
      s.(blocks := s.blocks[block := nb.(tail := NextSlot(nb.tail, |nb.data|))], producer := AdvanceTail(v, block))
    case LinkBlock(v, block) =>
      s.(blocks := s.blocks[id := b.(next := block)], producer := AdvanceTail(v, block))
    case AdvanceTail(v, block) =>
      s.(tailBlock := block, producer := ProducerIdle, enqueued := s.enqueued + [v])
  }

  /** try_dequeue, pop and peek */
  function Consume<T>(s: State<T>): State<T>
    requires Enabled(s, RunConsumer)
  {
    var id := s.frontBlock;
    var b := s.blocks[id];
    match s.consumer
    case CheckFront(mode) =>
      s.(consumer := if b.front != b.localTail then ReadElement(mode) else ReloadTail(mode))
    case ReloadTail(mode) =>
      s.(blocks := s.blocks[id := b.(localTail := b.tail)],
         consumer := if b.front != b.tail then ReadElement(mode) else LoadTailBlock(mode, |s.enqueued|))
    case LoadTailBlock(mode, _) =>
      s.(consumer := if id != s.tailBlock then RecheckFront(mode) else ConsumerIdle)
    case RecheckFront(mode) =>
      s.(blocks := s.blocks[id := b.(localTail := b.tail)],
         consumer := if b.front != b.tail then ReadElement(mode) else LoadNext(mode))
    case LoadNext(mode) =>
      s.(consumer := CheckNextBlock(mode, b.next))
    case CheckNextBlock(mode, block) =>
      if mode.Peek? then s.(consumer := ConsumerIdle)
      else
        s.(blocks := s.blocks[block := s.blocks[block].(localTail := s.blocks[block].tail)],
           consumer := AdvanceFront(mode, block))
    case AdvanceFront(mode, block) =>
      s.(frontBlock := block, consumer := ReadElement(mode))
    case ReadElement(mode) =>
      s.(consumer := if mode.Peek? then ConsumerIdle else PublishFront(mode, b.data[b.front].value))
    case PublishFront(mode, x) =>
      s.(blocks := s.blocks[id := b.(front := NextSlot(b.front, |b.data|))], consumer := ConsumerIdle,
         dequeued := s.dequeued + [x])
  }

  // ----- Unbounded counts behind the circular indices -----

  /** Within one lap, two counts share a slot only if they are equal or a full lap apart. */
  lemma SlotsMeet(c: nat, d: nat, n: nat)
    requires n > 0 && c <= d <= c + n
    ensures Slot(c, n) == Slot(d, n) <==> d == c || d == c + n
  {
    SlotAhead(c, d - c, n);
  }

  /** A block's history: how often front and tail moved, what the shadow copies remember of that, and
      every value ever published in it. */
  datatype Log<T> = Log(localFront: nat, front: nat, localTail: nat, tail: nat, vals: seq<T>)

  ghost predicate BlockOk<T>(b: Block<T>, g: Log<T>) {
    var n := |b.data|;
    && n >= 2
    && g.localFront <= g.front <= g.localTail <= g.tail < g.localFront + n && |g.vals| == g.tail
    && b.localFront == Slot(g.localFront, n) && b.front == Slot(g.front, n)
    && b.localTail == Slot(g.localTail, n) && b.tail == Slot(g.tail, n)
    && forall c :: g.front <= c < g.tail ==> b.data[Slot(c, n)] == Some(g.vals[c])
  }

  /** The elements a block holds. */
  ghost function Left<T>(g: Log<T>): seq<T> {
    if g.front <= g.tail <= |g.vals| then g.vals[g.front..g.tail] else []
  }

  /** ring lists the blocks from frontBlock on; ring[k] is tailBlock. */
  datatype View<T> = View(ring: seq<BlockId>, k: nat, logs: map<BlockId, Log<T>>)

  ghost function LogOf<T>(w: View<T>, id: BlockId): Log<T> {
    if id in w.logs then w.logs[id] else Log(0, 0, 0, 0, [])
  }

  /** The elements of the first m blocks of the ring. */
  ghost function Items<T>(w: View<T>, m: nat): seq<T>
    requires m <= |w.ring|
  {
    if m == 0 then [] else Items(w, m - 1) + Left(LogOf(w, w.ring[m - 1]))
  }

  function After(ring: seq<BlockId>, i: nat): BlockId
    requires i < |ring|
  {
    if i + 1 == |ring| then ring[0] else ring[i + 1]
  }

  /** The i-th block of the ring exists and links to the next. */
  ghost predicate LinkedAt<T>(s: State<T>, w: View<T>, i: nat) {
    i < |w.ring| && w.ring[i] in s.blocks && s.blocks[w.ring[i]].next == After(w.ring, i)
  }

  ghost predicate RingOk<T>(s: State<T>, w: View<T>) {
    && w.k < |w.ring|
    && (forall i, j :: 0 <= i < j < |w.ring| ==> w.ring[i] != w.ring[j])
    && (forall i {:trigger LinkedAt(s, w, i)} :: 0 <= i < |w.ring| ==> LinkedAt(s, w, i))
    && s.frontBlock == w.ring[0] && s.tailBlock == w.ring[w.k]
  }

  ghost predicate GoodAt<T>(s: State<T>, w: View<T>, id: BlockId) {
    id in s.blocks && id in w.logs && BlockOk(s.blocks[id], w.logs[id])
  }

  ghost predicate BlocksOk<T>(s: State<T>, w: View<T>) {
    && w.logs.Keys == s.blocks.Keys
    && forall id {:trigger GoodAt(s, w, id)} :: id in s.blocks ==> GoodAt(s, w, id)
  }

  ghost predicate HoldsAt<T>(w: View<T>, i: nat) {
    i < |w.ring| && LogOf(w, w.ring[i]).front < LogOf(w, w.ring[i]).tail
  }

  ghost predicate EmptyAt<T>(w: View<T>, i: nat) {
    i < |w.ring| && LogOf(w, w.ring[i]).front == LogOf(w, w.ring[i]).tail
  }

  /** Blocks after the front one up to the tail block hold elements; blocks beyond the tail block are empty,
      save the one the producer has filled and is about to make the tail block. */
  ghost predicate Occupied<T>(w: View<T>, filled: bool) {
    && (forall i {:trigger HoldsAt(w, i)} :: 0 < i <= w.k < |w.ring| ==> HoldsAt(w, i))
    && (forall i {:trigger EmptyAt(w, i)} :: w.k < i < |w.ring| && !(i == w.k + 1 && filled) ==> EmptyAt(w, i))
  }

  ghost predicate ProducerOk<T>(s: State<T>, w: View<T>) {
    var p, g := s.producer, LogOf(w, s.tailBlock);
    var free := s.tailBlock in s.blocks && g.tail + 1 < g.localFront + |s.blocks[s.tailBlock].data|;
    match p
    case WriteElement(_) => free
    case PublishTail(v) => free && s.blocks[s.tailBlock].tail < |s.blocks[s.tailBlock].data|
      && s.blocks[s.tailBlock].data[s.blocks[s.tailBlock].tail] == Some(v)
    case EnterNext(_) => w.k + 1 < |w.ring|
    case WriteInNext(_, b) => Upcoming(s, w, b) && LogOf(w, b).localFront == LogOf(w, b).tail
    case PublishInNext(v, b) =>
      && Upcoming(s, w, b) && LogOf(w, b).localFront == LogOf(w, b).tail
      && s.blocks[b].tail < |s.blocks[b].data| && s.blocks[b].data[s.blocks[b].tail] == Some(v)
    case LinkBlock(v, b) =>
      && b in s.blocks && b !in w.ring && LogOf(w, b) == Log(0, 0, 1, 1, [v])
      && s.tailBlock in s.blocks && s.blocks[b].next == s.blocks[s.tailBlock].next
    case AdvanceTail(v, b) => Upcoming(s, w, b) && Left(LogOf(w, b)) == [v]
    case _ => true
  }

  /** b is the block just beyond the tail block. */
  ghost predicate Upcoming<T>(s: State<T>, w: View<T>, b: BlockId) {
    w.k + 1 < |w.ring| && b == w.ring[w.k + 1] && b in s.blocks
  }

  ghost predicate ConsumerOk<T>(s: State<T>, w: View<T>) {
    var g := LogOf(w, s.frontBlock);
    match s.consumer
    case LoadTailBlock(_, mark) => w.k == 0 ==> mark <= |s.dequeued|
    case RecheckFront(_) => w.k > 0
    case LoadNext(_) => w.k > 0 && g.front == g.tail
    case CheckNextBlock(_, b) => w.k > 0 && g.front == g.tail && 1 < |w.ring| && b == w.ring[1]
    case AdvanceFront(_, b) =>
      && w.k > 0 && g.front == g.tail && 1 < |w.ring| && b == w.ring[1]
      && LogOf(w, b).front < LogOf(w, b).localTail
    case ReadElement(_) => g.front < g.localTail
    case PublishFront(_, x) => g.front < g.localTail && g.front < |g.vals| && g.vals[g.front] == x
    case _ => true
  }

  ghost predicate Inv<T>(s: State<T>, w: View<T>) {
    && RingOk(s, w) && BlocksOk(s, w) && Occupied(w, s.producer.AdvanceTail?) && ProducerOk(s, w) && ConsumerOk(s, w)
    && s.dequeued + Items(w, w.k + 1) == s.enqueued
  }

  // ----- Items -----

  lemma {:induction false} ItemsSame<T>(w: View<T>, w': View<T>, m: nat)
    requires m <= |w.ring| && m <= |w'.ring|
    requires forall i :: 0 <= i < m ==> Left(LogOf(w', w'.ring[i])) == Left(LogOf(w, w.ring[i]))
    ensures Items(w', m) == Items(w, m)
  {
    if m > 0 { ItemsSame(w, w', m - 1); }
  }

  /** Dropping the first block of the ring drops what it held. */
  lemma {:induction false} ItemsShift<T>(w: View<T>, w': View<T>, m: nat)
    requires m < |w.ring| && m <= |w'.ring|
    requires forall i :: 0 <= i < m ==> Left(LogOf(w', w'.ring[i])) == Left(LogOf(w, w.ring[i + 1]))
    ensures Items(w, m + 1) == Left(LogOf(w, w.ring[0])) + Items(w', m)
  {
    if m == 0 {
      assert Items(w, 1) == Items(w, 0) + Left(LogOf(w, w.ring[0]));
    } else {
      ItemsShift(w, w', m - 1);
      Associate(Left(LogOf(w, w.ring[0])), Items(w', m - 1), Left(LogOf(w, w.ring[m])));
    }
  }

  lemma {:induction false} ItemsPop<T>(w: View<T>, w': View<T>, m: nat, x: T)
    requires 0 < m <= |w.ring| && w'.ring == w.ring
    requires Left(LogOf(w, w.ring[0])) == [x] + Left(LogOf(w', w.ring[0]))
    requires forall i :: 0 < i < m ==> Left(LogOf(w', w.ring[i])) == Left(LogOf(w, w.ring[i]))
    ensures Items(w, m) == [x] + Items(w', m)
  {
    if m == 1 {
      assert Items(w, 0) == [] && Items(w', 0) == [];
    } else {
      ItemsPop(w, w', m - 1, x);
      Associate([x], Items(w', m - 1), Left(LogOf(w, w.ring[m - 1])));
    }
  }

  // ----- Preservation: one block changes -----

  /** s' and w' differ from s and w in block id only, besides program points and logs of operations. */
  ghost predicate OnlyBlock<T>(s: State<T>, s': State<T>, w: View<T>, w': View<T>, id: BlockId) {
    && s'.frontBlock == s.frontBlock && s'.tailBlock == s.tailBlock && w'.ring == w.ring && w'.k == w.k
    && id in s.blocks && s'.blocks.Keys == s.blocks.Keys && w'.logs.Keys == w.logs.Keys
    && (forall o :: o in s.blocks && o != id ==> s'.blocks[o] == s.blocks[o])
    && (forall o :: o != id ==> LogOf(w', o) == LogOf(w, o))
    && s'.blocks[id].next == s.blocks[id].next
  }

  lemma ShapeKept<T>(s: State<T>, s': State<T>, w: View<T>, w': View<T>, id: BlockId)
    requires RingOk(s, w) && BlocksOk(s, w) && OnlyBlock(s, s', w, w', id) && GoodAt(s', w', id)
    ensures RingOk(s', w') && BlocksOk(s', w')
  {
    forall o | o in s'.blocks ensures GoodAt(s', w', o) {
      if o != id { assert GoodAt(s, w, o) && LogOf(w', o) == LogOf(w, o); }
    }
    forall i | 0 <= i < |w'.ring| ensures LinkedAt(s', w', i) { assert LinkedAt(s, w, i); }
  }

  /** The block's elements, and whether it holds any, are the same before and after. */
  lemma QuietKept<T>(s: State<T>, s': State<T>, w: View<T>, w': View<T>, id: BlockId, filled: bool)
    requires RingOk(s, w) && Occupied(w, filled) && OnlyBlock(s, s', w, w', id)
    requires LogOf(w', id).front == LogOf(w, id).front && LogOf(w', id).tail == LogOf(w, id).tail
    requires LogOf(w', id).vals == LogOf(w, id).vals
    ensures Occupied(w', filled) && Items(w', w'.k + 1) == Items(w, w.k + 1)
  {
    forall i | 0 < i <= w'.k < |w'.ring| ensures HoldsAt(w', i) { assert HoldsAt(w, i); }
    forall i | w'.k < i < |w'.ring| && !(i == w'.k + 1 && filled) ensures EmptyAt(w', i) { assert EmptyAt(w, i); }
    ItemsSame(w, w', w.k + 1);
  }

  ghost function SetLog<T>(w: View<T>, id: BlockId, g: Log<T>): View<T> {
    w.(logs := w.logs[id := g])
  }

  // ----- The producer -----

  /** What the consumer knows about blocks survives when the producer refreshes its shadow copy, writes a
      slot, or adds a value at a tail. */
  lemma ConsumerUndisturbed<T>(s: State<T>, s': State<T>, w: View<T>, w': View<T>, id: BlockId)
    requires RingOk(s, w) && ConsumerOk(s, w) && OnlyBlock(s, s', w, w', id)
    requires s'.consumer == s.consumer && s'.dequeued == s.dequeued
    requires LogOf(w', id).front == LogOf(w, id).front && LogOf(w', id).localTail == LogOf(w, id).localTail
    requires LogOf(w, id).vals <= LogOf(w', id).vals
    requires LogOf(w', id).tail == LogOf(w, id).tail || w.k == 0 || id != s.frontBlock
    ensures ConsumerOk(s', w')
  {}

  /** Steps that change the program point alone. */
  lemma ProducerMoves<T>(s: State<T>, w: View<T>, p: ProducerPc<T>)
    requires Inv(s, w) && !s.producer.AdvanceTail? && !p.AdvanceTail? && ProducerOk(s.(producer := p), w)
    ensures Inv(s.(producer := p), w)
  {
    var s' := s.(producer := p);
    assert BlocksOk(s', w) by {
      forall o | o in s'.blocks ensures GoodAt(s', w, o) { assert GoodAt(s, w, o); }
    }
    forall i | 0 <= i < |w.ring| ensures LinkedAt(s', w, i) { assert LinkedAt(s, w, i); }
    assert ConsumerOk(s', w);
  }

  /** Steps of the producer inside one block that add no element. */
  lemma ProducerQuiet<T>(s: State<T>, s': State<T>, w: View<T>, w': View<T>, id: BlockId)
    requires Inv(s, w) && OnlyBlock(s, s', w, w', id) && GoodAt(s', w', id) && ProducerOk(s', w')
    requires s'.consumer == s.consumer && s'.enqueued == s.enqueued && s'.dequeued == s.dequeued
    requires !s.producer.AdvanceTail? && !s'.producer.AdvanceTail?
    requires LogOf(w', id) == LogOf(w, id).(localFront := LogOf(w', id).localFront)
    ensures Inv(s', w')
  {
    ShapeKept(s, s', w, w', id);
    QuietKept(s, s', w, w', id, false);
    ConsumerUndisturbed(s, s', w, w', id);
  }

  lemma PreserveCheckRoom<T>(s: State<T>, w: View<T>)
    requires Inv(s, w) && Enabled(s, RunProducer) && s.producer.CheckRoom?
    ensures Inv(Produce(s), w)
  {
    assert GoodAt(s, w, s.tailBlock);
    var b, g := s.blocks[s.tailBlock], w.logs[s.tailBlock];
    SlotsMeet(g.localFront, g.tail + 1, |b.data|);
    ProducerMoves(s, w, Produce(s).producer);
  }

  lemma PreserveReloadFront<T>(s: State<T>, w: View<T>) returns (w': View<T>)
    requires Inv(s, w) && Enabled(s, RunProducer) && s.producer.ReloadFront?
    ensures Inv(Produce(s), w')
  {
    var id, s' := s.tailBlock, Produce(s);
    assert GoodAt(s, w, id);
    var b, g := s.blocks[id], w.logs[id];
    w' := SetLog(w, id, g.(localFront := g.front));
    SlotsMeet(g.front, g.tail + 1, |b.data|);
    assert GoodAt(s', w', id);
    ProducerQuiet(s, s', w, w', id);
  }

  lemma PreserveWriteElement<T>(s: State<T>, w: View<T>)
    requires Inv(s, w) && Enabled(s, RunProducer) && s.producer.WriteElement?
    ensures Inv(Produce(s), w)
  {
    var id, s' := s.tailBlock, Produce(s);
    assert GoodAt(s, w, id);
    FreeSlot(s.blocks[id], w.logs[id], s.producer.v);
    assert GoodAt(s', w, id);
    ProducerQuiet(s, s', w, w, id);
  }

  /** The slot at tail holds no element, so writing it disturbs none. */
  lemma FreeSlot<T>(b: Block<T>, g: Log<T>, v: T)
    requires BlockOk(b, g) && g.tail + 1 < g.localFront + |b.data|
    ensures BlockOk(b.(data := b.data[b.tail := Some(v)]), g)
  {
    forall c | g.front <= c < g.tail ensures Slot(c, |b.data|) != b.tail {
      SlotsMeet(c, g.tail, |b.data|);
    }
  }

  ghost function Publish<T>(g: Log<T>, v: T): Log<T> {
    g.(tail := g.tail + 1, vals := g.vals + [v])
  }

  /** Publishing makes the written value the block's last element. */
  lemma Published<T>(b: Block<T>, g: Log<T>, v: T)
    requires BlockOk(b, g) && g.tail + 1 < g.localFront + |b.data| && b.data[b.tail] == Some(v)
    ensures BlockOk(b.(tail := NextSlot(b.tail, |b.data|)), Publish(g, v)) && Left(Publish(g, v)) == Left(g) + [v]
  {}

  /** A value published in the tail block is the queue's last element. */
  lemma PreservePublishTail<T>(s: State<T>, w: View<T>) returns (w': View<T>)
    requires Inv(s, w) && Enabled(s, RunProducer) && s.producer.PublishTail?
    ensures Inv(Produce(s), w')
  {
    var id, s', v := s.tailBlock, Produce(s), s.producer.v;
    assert GoodAt(s, w, id);
    w' := SetLog(w, id, Publish(w.logs[id], v));
    Published(s.blocks[id], w.logs[id], v);
    assert GoodAt(s', w', id);
    ShapeKept(s, s', w, w', id);
    PublishedItems(s, s', w, w', id, v);
    ConsumerUndisturbed(s, s', w, w', id);
    AppendQueue(s.dequeued, Items(w, w.k + 1), v);
  }

  lemma AppendQueue<T>(taken: seq<T>, left: seq<T>, v: T)
    ensures (taken + left) + [v] == taken + (left + [v])
  {}

  lemma PublishedItems<T>(s: State<T>, s': State<T>, w: View<T>, w': View<T>, id: BlockId, v: T)
    requires RingOk(s, w) && Occupied(w, false) && OnlyBlock(s, s', w, w', id) && id == w.ring[w.k]
    requires LogOf(w', id) == Publish(LogOf(w, id), v) && LogOf(w, id).front <= LogOf(w, id).tail
    requires Left(LogOf(w', id)) == Left(LogOf(w, id)) + [v]
    ensures Occupied(w', false) && Items(w', w'.k + 1) == Items(w, w.k + 1) + [v]
  {
    forall i | 0 < i <= w'.k < |w'.ring| ensures HoldsAt(w', i) { assert HoldsAt(w, i); }
    forall i | w'.k < i < |w'.ring| ensures EmptyAt(w', i) { assert EmptyAt(w, i); }
    ItemsSame(w, w', w.k);
  }

  lemma PreserveCheckNext<T>(s: State<T>, w: View<T>)
    requires Inv(s, w) && Enabled(s, RunProducer) && s.producer.CheckNext?
    ensures Inv(Produce(s), w)
  {
    assert LinkedAt(s, w, w.k);
    ProducerMoves(s, w, Produce(s).producer);
  }

  lemma PreserveEnterNext<T>(s: State<T>, w: View<T>) returns (w': View<T>)
    requires Inv(s, w) && Enabled(s, RunProducer) && s.producer.EnterNext?
    ensures Inv(Produce(s), w')
  {
    var s' := Produce(s);
    assert LinkedAt(s, w, w.k) && LinkedAt(s, w, w.k + 1) && EmptyAt(w, w.k + 1);
    var id := w.ring[w.k + 1];
    assert GoodAt(s, w, id);
    w' := SetLog(w, id, w.logs[id].(localFront := w.logs[id].front));
    assert GoodAt(s', w', id);
    ProducerQuiet(s, s', w, w', id);
  }

  lemma PreserveWriteInNext<T>(s: State<T>, w: View<T>)
    requires Inv(s, w) && Enabled(s, RunProducer) && s.producer.WriteInNext?
    ensures Inv(Produce(s), w)
  {
    var id, s' := s.producer.block, Produce(s);
    assert GoodAt(s, w, id);
    FreeSlot(s.blocks[id], w.logs[id], s.producer.v);
    assert GoodAt(s', w, id);
    ProducerQuiet(s, s', w, w, id);
  }

  lemma PreservePublishInNext<T>(s: State<T>, w: View<T>) returns (w': View<T>)
    requires Inv(s, w) && Enabled(s, RunProducer) && s.producer.PublishInNext?
    ensures Inv(Produce(s), w')
  {
    var id, s', v := s.producer.block, Produce(s), s.producer.v;
    assert GoodAt(s, w, id) && EmptyAt(w, w.k + 1);
    w' := SetLog(w, id, Publish(w.logs[id], v));
    Published(s.blocks[id], w.logs[id], v);
    assert GoodAt(s', w', id);
    ShapeKept(s, s', w, w', id);
    ConsumerUndisturbed(s, s', w, w', id);
    UpcomingItems(s, s', w, w', id);
  }

  /** What happens in the block beyond the tail block is not in the queue yet. */
  lemma UpcomingItems<T>(s: State<T>, s': State<T>, w: View<T>, w': View<T>, id: BlockId)
    requires RingOk(s, w) && Occupied(w, false) && OnlyBlock(s, s', w, w', id)
    requires w.k + 1 < |w.ring| && id == w.ring[w.k + 1]
    ensures Occupied(w', true) && Items(w', w'.k + 1) == Items(w, w.k + 1)
  {
    ItemsSame(w, w', w.k + 1);
    forall i | 0 < i <= w'.k < |w'.ring| ensures HoldsAt(w', i) { assert HoldsAt(w, i); }
    forall i | w'.k + 1 < i < |w'.ring| ensures EmptyAt(w', i) { assert EmptyAt(w, i); }
  }

  /** The filled block becomes the tail block: its element is now in the queue. */
  lemma PreserveAdvanceTail<T>(s: State<T>, w: View<T>) returns (w': View<T>)
    requires Inv(s, w) && Enabled(s, RunProducer) && s.producer.AdvanceTail?
    ensures Inv(Produce(s), w')
  {
    var s', v := Produce(s), s.producer.v;
    w' := w.(k := w.k + 1);
    AdvanceItems(w, w');
    AdvanceShape(s, s', w, w');
    AppendQueue(s.dequeued, Items(w, w.k + 1), v);
    assert ConsumerOk(s', w');
  }

  lemma AdvanceItems<T>(w: View<T>, w': View<T>)
    requires w.k + 1 < |w.ring| && Occupied(w, true) && w' == w.(k := w.k + 1)
    requires Left(LogOf(w, w.ring[w.k + 1])) != []
    ensures Occupied(w', false)
    ensures Items(w', w'.k + 1) == Items(w, w.k + 1) + Left(LogOf(w, w.ring[w.k + 1]))
  {
    AdvanceOccupied(w, w');
    ItemsNext(w, w', w.k + 1);
  }

  lemma ItemsNext<T>(w: View<T>, w': View<T>, m: nat)
    requires m < |w.ring| && w'.ring == w.ring && w'.logs == w.logs
    ensures Items(w', m + 1) == Items(w, m) + Left(LogOf(w, w.ring[m]))
  {
    ItemsSame(w, w', m);
  }

  lemma AdvanceOccupied<T>(w: View<T>, w': View<T>)
    requires w.k + 1 < |w.ring| && Occupied(w, true) && w' == w.(k := w.k + 1)
    requires Left(LogOf(w, w.ring[w.k + 1])) != []
    ensures Occupied(w', false)
  {
    forall i | 0 < i <= w'.k < |w'.ring| ensures HoldsAt(w', i) {
      if i <= w.k { assert HoldsAt(w, i); }
    }
    forall i | w'.k < i < |w'.ring| ensures EmptyAt(w', i) { assert EmptyAt(w, i); }
  }

  lemma AdvanceShape<T>(s: State<T>, s': State<T>, w: View<T>, w': View<T>)
    requires RingOk(s, w) && BlocksOk(s, w) && w.k + 1 < |w.ring| && w' == w.(k := w.k + 1)
    requires s'.blocks == s.blocks && s'.frontBlock == s.frontBlock && s'.tailBlock == w.ring[w.k + 1]
    ensures RingOk(s', w') && BlocksOk(s', w')
  {
    forall o | o in s'.blocks ensures GoodAt(s', w', o) { assert GoodAt(s, w, o); }
    forall i | 0 <= i < |w'.ring| ensures LinkedAt(s', w', i) { assert LinkedAt(s, w, i); }
  }

  lemma PreserveAllocate<T>(s: State<T>, w: View<T>, id: BlockId, size: nat) returns (w': View<T>)
    requires Inv(s, w) && Enabled(s, Allocate(id, size))
    ensures Inv(Step(s, Allocate(id, size)), w')
  {
    var s', v := Step(s, Allocate(id, size)), s.producer.v;
    w' := SetLog(w, id, Log(0, 0, 1, 1, [v]));
    FreshBlock(s, s', w, w', id, v);
    FreshKeeps(s, s', w, w', id);
  }

  /** A block outside the ring does not matter to the ring. */
  lemma FreshKeeps<T>(s: State<T>, s': State<T>, w: View<T>, w': View<T>, id: BlockId)
    requires RingOk(s, w) && Occupied(w, false) && ConsumerOk(s, w)
    requires id !in s.blocks && id in s'.blocks && s'.blocks == s.blocks[id := s'.blocks[id]]
    requires s'.frontBlock == s.frontBlock && s'.tailBlock == s.tailBlock
    requires s'.consumer == s.consumer && s'.dequeued == s.dequeued
    requires id in w'.logs && w' == SetLog(w, id, w'.logs[id])
    ensures RingOk(s', w') && Occupied(w', false) && ConsumerOk(s', w') && id !in w.ring
    ensures Items(w', w'.k + 1) == Items(w, w.k + 1)
  {
    forall i | 0 <= i < |w'.ring| ensures LinkedAt(s', w', i) && w.ring[i] != id { assert LinkedAt(s, w, i); }
    FreshItems(w, w', id);
  }

  lemma FreshItems<T>(w: View<T>, w': View<T>, id: BlockId)
    requires w.k < |w.ring| && id !in w.ring && Occupied(w, false)
    requires id in w'.logs && w' == SetLog(w, id, w'.logs[id])
    ensures Occupied(w', false) && Items(w', w'.k + 1) == Items(w, w.k + 1)
  {
    ItemsSame(w, w', w.k + 1);
    forall i | 0 < i <= w'.k < |w'.ring| ensures HoldsAt(w', i) { assert HoldsAt(w, i); }
    forall i | w'.k < i < |w'.ring| ensures EmptyAt(w', i) { assert EmptyAt(w, i); }
  }

  lemma FreshBlock<T>(s: State<T>, s': State<T>, w: View<T>, w': View<T>, id: BlockId, v: T)
    requires BlocksOk(s, w) && id !in s.blocks && id in s'.blocks && s'.blocks == s.blocks[id := s'.blocks[id]]
    requires s'.blocks[id].front == 0 && s'.blocks[id].localTail == 1 && s'.blocks[id].tail == 1
    requires s'.blocks[id].localFront == 0 && |s'.blocks[id].data| >= 2 && s'.blocks[id].data[0] == Some(v)
    requires w' == SetLog(w, id, Log(0, 0, 1, 1, [v]))
    ensures BlocksOk(s', w')
  {
    var n := |s'.blocks[id].data|;
    assert Slot(0, n) == 0 && Slot(1, n) == NextSlot(Slot(0, n), n) == 1;
    assert GoodAt(s', w', id);
    forall o | o in s'.blocks ensures GoodAt(s', w', o) {
      if o != id { assert GoodAt(s, w, o); }
    }
  }

  /** Linking puts the filled block behind the tail block, where the consumer does not look yet. */
  lemma PreserveLinkBlock<T>(s: State<T>, w: View<T>) returns (w': View<T>)
    requires Inv(s, w) && Enabled(s, RunProducer) && s.producer.LinkBlock?
    ensures Inv(Produce(s), w')
  {
    var s', id := Produce(s), s.producer.block;
    w' := w.(ring := w.ring[..w.k + 1] + [id] + w.ring[w.k + 1..]);
    LinkRing(s, s', w, w', id);
    LinkItems(w, w', id);
    assert BlocksOk(s', w') by {
      forall o | o in s'.blocks ensures GoodAt(s', w', o) { assert GoodAt(s, w, o); }
    }
    assert ConsumerOk(s', w');
  }

  lemma LinkItems<T>(w: View<T>, w': View<T>, id: BlockId)
    requires w.k < |w.ring| && Occupied(w, false)
    requires w' == w.(ring := w.ring[..w.k + 1] + [id] + w.ring[w.k + 1..])
    ensures Occupied(w', true) && Items(w', w'.k + 1) == Items(w, w.k + 1)
  {
    LinkPlaces(w.ring, w.k, id);
    ItemsSame(w, w', w.k + 1);
    forall i | 0 < i <= w'.k < |w'.ring| ensures HoldsAt(w', i) { assert HoldsAt(w, i); }
    forall i | w'.k + 1 < i < |w'.ring| ensures EmptyAt(w', i) { assert EmptyAt(w, i - 1); }
  }

  lemma LinkPlaces(ring: seq<BlockId>, k: nat, id: BlockId)
    requires k < |ring|
    ensures var ring' := ring[..k + 1] + [id] + ring[k + 1..];
      && |ring'| == |ring| + 1
      && (forall i :: 0 <= i <= k ==> ring'[i] == ring[i])
      && (forall i :: k + 1 < i < |ring'| ==> ring'[i] == ring[i - 1])
  {}

  lemma LinkRing<T>(s: State<T>, s': State<T>, w: View<T>, w': View<T>, id: BlockId)
    requires RingOk(s, w) && id in s.blocks && id !in w.ring && s.tailBlock in s.blocks
    requires s.blocks[id].next == s.blocks[s.tailBlock].next
    requires s'.blocks == s.blocks[s.tailBlock := s.blocks[s.tailBlock].(next := id)]
    requires s'.frontBlock == s.frontBlock && s'.tailBlock == s.tailBlock
    requires w'.k == w.k && w'.ring == w.ring[..w.k + 1] + [id] + w.ring[w.k + 1..]
    ensures RingOk(s', w')
  {
    assert LinkedAt(s, w, w.k);
    forall i | 0 <= i < |w'.ring| ensures LinkedAt(s', w', i) {
      if i <= w.k { assert LinkedAt(s, w, i); }
      if i > w.k + 1 { assert LinkedAt(s, w, i - 1); }
    }
    forall i, j | 0 <= i < j < |w'.ring| ensures w'.ring[i] != w'.ring[j] {
      assert w'.ring[i] == id || w'.ring[i] == w.ring[if i <= w.k then i else i - 1];
    }
  }

  // ----- The consumer -----

  /** What the producer knows about blocks survives when the consumer moves a front on or refreshes its
      shadow copy: a free slot stays free, an empty block stays empty. */
  lemma ProducerUndisturbed<T>(s: State<T>, s': State<T>, w: View<T>, w': View<T>, id: BlockId)
    requires RingOk(s, w) && ProducerOk(s, w) && OnlyBlock(s, s', w, w', id)
    requires s'.producer == s.producer
    requires s'.blocks[id].data == s.blocks[id].data && s'.blocks[id].tail == s.blocks[id].tail
    requires LogOf(w', id).localFront == LogOf(w, id).localFront && LogOf(w', id).tail == LogOf(w, id).tail
    requires LogOf(w', id).vals == LogOf(w, id).vals
    requires LogOf(w', id).localTail == LogOf(w, id).localTail || id in w.ring
    requires LogOf(w', id).front == LogOf(w, id).front || id == s.frontBlock
    ensures ProducerOk(s', w')
  {}

  lemma ConsumerMoves<T>(s: State<T>, w: View<T>, c: ConsumerPc<T>)
    requires Inv(s, w) && ConsumerOk(s.(consumer := c), w)
    ensures Inv(s.(consumer := c), w)
  {
    var s' := s.(consumer := c);
    assert BlocksOk(s', w) by {
      forall o | o in s'.blocks ensures GoodAt(s', w, o) { assert GoodAt(s, w, o); }
    }
    forall i | 0 <= i < |w.ring| ensures LinkedAt(s', w, i) { assert LinkedAt(s, w, i); }
    assert ProducerOk(s', w);
  }

  /** Steps of the consumer inside one block of the ring that take no element. */
  lemma ConsumerQuiet<T>(s: State<T>, s': State<T>, w: View<T>, w': View<T>, id: BlockId)
    requires Inv(s, w) && OnlyBlock(s, s', w, w', id) && GoodAt(s', w', id) && ConsumerOk(s', w')
    requires s'.producer == s.producer && s'.enqueued == s.enqueued && s'.dequeued == s.dequeued
    requires s'.blocks[id] == s.blocks[id].(localTail := s'.blocks[id].localTail)
    requires LogOf(w', id) == LogOf(w, id).(localTail := LogOf(w', id).localTail) && id in w.ring
    ensures Inv(s', w')
  {
    ShapeKept(s, s', w, w', id);
    QuietKept(s, s', w, w', id, s.producer.AdvanceTail?);
    ProducerUndisturbed(s, s', w, w', id);
  }

  ghost function Refresh<T>(w: View<T>, id: BlockId): View<T>
    requires id in w.logs
  {
    SetLog(w, id, w.logs[id].(localTail := w.logs[id].tail))
  }

  lemma PreserveCheckFront<T>(s: State<T>, w: View<T>)
    requires Inv(s, w) && Enabled(s, RunConsumer) && s.consumer.CheckFront?
    ensures Inv(Consume(s), w)
  {
    assert GoodAt(s, w, s.frontBlock);
    var b, g := s.blocks[s.frontBlock], w.logs[s.frontBlock];
    SlotsMeet(g.front, g.localTail, |b.data|);
    ConsumerMoves(s, w, Consume(s).consumer);
  }

  /** Seeing the front block empty while it is the tail block means that the queue is empty. */
  lemma PreserveReloadTail<T>(s: State<T>, w: View<T>) returns (w': View<T>)
    requires Inv(s, w) && Enabled(s, RunConsumer) && s.consumer.ReloadTail?
    ensures Inv(Consume(s), w')
  {
    var id, s' := s.frontBlock, Consume(s);
    assert GoodAt(s, w, id);
    var b, g := s.blocks[id], w.logs[id];
    SlotsMeet(g.front, g.tail, |b.data|);
    w' := Refresh(w, id);
    assert GoodAt(s', w', id);
    if w.k == 0 && g.front == g.tail {
      assert Items(w, 1) == Items(w, 0) + Left(g) == [];
      assert s.dequeued == s.enqueued;
    }
    ConsumerQuiet(s, s', w, w', id);
  }

  lemma PreserveLoadTailBlock<T>(s: State<T>, w: View<T>)
    requires Inv(s, w) && Enabled(s, RunConsumer) && s.consumer.LoadTailBlock?
    ensures Inv(Consume(s), w)
  {
    ConsumerMoves(s, w, Consume(s).consumer);
  }

  lemma PreserveRecheckFront<T>(s: State<T>, w: View<T>) returns (w': View<T>)
    requires Inv(s, w) && Enabled(s, RunConsumer) && s.consumer.RecheckFront?
    ensures Inv(Consume(s), w')
  {
    var id, s' := s.frontBlock, Consume(s);
    assert GoodAt(s, w, id);
    var b, g := s.blocks[id], w.logs[id];
    SlotsMeet(g.front, g.tail, |b.data|);
    w' := Refresh(w, id);
    assert GoodAt(s', w', id);
    ConsumerQuiet(s, s', w, w', id);
  }

  lemma PreserveLoadNext<T>(s: State<T>, w: View<T>)
    requires Inv(s, w) && Enabled(s, RunConsumer) && s.consumer.LoadNext?
    ensures Inv(Consume(s), w)
  {
    assert LinkedAt(s, w, 0);
    ConsumerMoves(s, w, Consume(s).consumer);
  }

  lemma PreserveCheckNextBlock<T>(s: State<T>, w: View<T>) returns (w': View<T>)
    requires Inv(s, w) && Enabled(s, RunConsumer) && s.consumer.CheckNextBlock?
    ensures Inv(Consume(s), w')
  {
    var id, s' := s.consumer.block, Consume(s);
    if s.consumer.mode.Peek? {
      w' := w;
      ConsumerMoves(s, w, ConsumerIdle);
    } else {
      assert GoodAt(s, w, id) && HoldsAt(w, 1);
      w' := Refresh(w, id);
      assert GoodAt(s', w', id);
      ConsumerQuiet(s, s', w, w', id);
    }
  }

  /** The emptied front block goes to the end of the ring. */
  lemma PreserveAdvanceFront<T>(s: State<T>, w: View<T>) returns (w': View<T>)
    requires Inv(s, w) && Enabled(s, RunConsumer) && s.consumer.AdvanceFront?
    ensures Inv(Consume(s), w')
  {
    var s' := Consume(s);
    w' := w.(ring := w.ring[1..] + [w.ring[0]], k := w.k - 1);
    RotateRing(s, s', w, w');
    RotateItems(w, w', s.producer.AdvanceTail?);
    assert BlocksOk(s', w') by {
      forall o | o in s'.blocks ensures GoodAt(s', w', o) { assert GoodAt(s, w, o); }
    }
    assert ProducerOk(s', w') by { RotateProducer(s, s', w, w'); }
  }

  lemma RotateRing<T>(s: State<T>, s': State<T>, w: View<T>, w': View<T>)
    requires RingOk(s, w) && w.k > 0 && s' == s.(frontBlock := w.ring[1], consumer := s'.consumer)
    requires w' == w.(ring := w.ring[1..] + [w.ring[0]], k := w.k - 1)
    ensures RingOk(s', w')
  {
    forall i | 0 <= i < |w'.ring| ensures LinkedAt(s', w', i) {
      assert LinkedAt(s, w, if i + 1 < |w.ring| then i + 1 else 0);
    }
    forall i, j | 0 <= i < j < |w'.ring| ensures w'.ring[i] != w'.ring[j] {
      assert w'.ring[i] == w.ring[i + 1] && w'.ring[j] == w.ring[if j + 1 < |w.ring| then j + 1 else 0];
    }
  }

  lemma RotateItems<T>(w: View<T>, w': View<T>, filled: bool)
    requires 0 < w.k < |w.ring| && Occupied(w, filled) && EmptyAt(w, 0)
    requires w' == w.(ring := w.ring[1..] + [w.ring[0]], k := w.k - 1)
    ensures Occupied(w', filled) && Items(w', w'.k + 1) == Items(w, w.k + 1)
  {
    RotatePlaces(w.ring);
    RotateOccupied(w, w', filled);
    assert Items(w, w.k + 1) == Left(LogOf(w, w.ring[0])) + Items(w', w.k) by { ItemsShift(w, w', w.k); }
    assert Left(LogOf(w, w.ring[0])) == [];
  }

  lemma RotatePlaces(ring: seq<BlockId>)
    requires ring != []
    ensures var ring' := ring[1..] + [ring[0]];
      |ring'| == |ring| && forall i :: 0 <= i < |ring| ==> ring'[i] == if i + 1 < |ring| then ring[i + 1] else ring[0]
  {}

  lemma RotateOccupied<T>(w: View<T>, w': View<T>, filled: bool)
    requires 0 < w.k < |w.ring| && Occupied(w, filled) && EmptyAt(w, 0)
    requires w'.logs == w.logs && w'.k == w.k - 1 && |w'.ring| == |w.ring|
    requires forall i :: 0 <= i < |w.ring| ==> w'.ring[i] == if i + 1 < |w.ring| then w.ring[i + 1] else w.ring[0]
    ensures Occupied(w', filled)
  {
    forall i | 0 < i <= w'.k < |w'.ring| ensures HoldsAt(w', i) { assert HoldsAt(w, i + 1); }
    forall i | w'.k < i < |w'.ring| && !(i == w'.k + 1 && filled) ensures EmptyAt(w', i) {
      if i + 1 < |w.ring| { assert EmptyAt(w, i + 1); }
    }
  }

  lemma RotateProducer<T>(s: State<T>, s': State<T>, w: View<T>, w': View<T>)
    requires RingOk(s, w) && ProducerOk(s, w) && w.k > 0
    requires s' == s.(frontBlock := w.ring[1], consumer := s'.consumer)
    requires w' == w.(ring := w.ring[1..] + [w.ring[0]], k := w.k - 1)
    ensures ProducerOk(s', w')
  {
    forall b ensures b in w'.ring <==> b in w.ring {
      assert w.ring == [w.ring[0]] + w.ring[1..];
    }
  }

  lemma PreserveReadElement<T>(s: State<T>, w: View<T>)
    requires Inv(s, w) && Enabled(s, RunConsumer) && s.consumer.ReadElement?
    ensures Inv(Consume(s), w)
  {
    assert GoodAt(s, w, s.frontBlock);
    ConsumerMoves(s, w, Consume(s).consumer);
  }

  lemma PreservePublishFront<T>(s: State<T>, w: View<T>) returns (w': View<T>)
    requires Inv(s, w) && Enabled(s, RunConsumer) && s.consumer.PublishFront?
    ensures Inv(Consume(s), w')
  {
    var id, s', x := s.frontBlock, Consume(s), s.consumer.x;
    assert GoodAt(s, w, id);
    var g := w.logs[id];
    w' := SetLog(w, id, g.(front := g.front + 1));
    assert GoodAt(s', w', id);
    ShapeKept(s, s', w, w', id);
    ProducerUndisturbed(s, s', w, w', id);
    TakenItems(s, s', w, w', id, x, s.producer.AdvanceTail?);
    PopQueue(s.dequeued, x, Items(w', w.k + 1));
  }

  lemma PopQueue<T>(taken: seq<T>, x: T, left: seq<T>)
    ensures taken + ([x] + left) == (taken + [x]) + left
  {}

  lemma TakenItems<T>(s: State<T>, s': State<T>, w: View<T>, w': View<T>, id: BlockId, x: T, filled: bool)
    requires RingOk(s, w) && Occupied(w, filled) && OnlyBlock(s, s', w, w', id) && id == w.ring[0]
    requires LogOf(w', id) == LogOf(w, id).(front := LogOf(w, id).front + 1)
    requires LogOf(w, id).front < LogOf(w, id).tail == |LogOf(w, id).vals| && LogOf(w, id).vals[LogOf(w, id).front] == x
    ensures Occupied(w', filled) && Items(w, w.k + 1) == [x] + Items(w', w'.k + 1)
  {
    forall i | 0 < i <= w'.k < |w'.ring| ensures HoldsAt(w', i) { assert HoldsAt(w, i); }
    forall i | w'.k < i < |w'.ring| && !(i == w'.k + 1 && filled) ensures EmptyAt(w', i) { assert EmptyAt(w, i); }
    assert Left(LogOf(w, id)) == [x] + Left(LogOf(w', id));
    ItemsPop(w, w', w.k + 1, x);
  }

  // ----- Every run -----

  lemma PreserveProduce<T>(s: State<T>, w: View<T>) returns (w': View<T>)
    requires Inv(s, w) && Enabled(s, RunProducer)
    ensures Inv(Produce(s), w')
  {
    w' := w;
    match s.producer
    case CheckRoom(_, _) => PreserveCheckRoom(s, w);
    case ReloadFront(_, _) => w' := PreserveReloadFront(s, w);
    case WriteElement(_) => PreserveWriteElement(s, w);
    case PublishTail(_) => w' := PreservePublishTail(s, w);
    case CheckNext(_, _) => PreserveCheckNext(s, w);
    case EnterNext(_) => w' := PreserveEnterNext(s, w);
    case WriteInNext(_, _) => PreserveWriteInNext(s, w);
    case PublishInNext(_, _) => w' := PreservePublishInNext(s, w);
    case LinkBlock(_, _) => w' := PreserveLinkBlock(s, w);
    case AdvanceTail(_, _) => w' := PreserveAdvanceTail(s, w);
  }

  lemma PreserveConsume<T>(s: State<T>, w: View<T>) returns (w': View<T>)
    requires Inv(s, w) && Enabled(s, RunConsumer)
    ensures Inv(Consume(s), w')
  {
    w' := w;
    match s.consumer
    case CheckFront(_) => PreserveCheckFront(s, w);
    case ReloadTail(_) => w' := PreserveReloadTail(s, w);
    case LoadTailBlock(_, _) => PreserveLoadTailBlock(s, w);
    case RecheckFront(_) => w' := PreserveRecheckFront(s, w);
    case LoadNext(_) => PreserveLoadNext(s, w);
    case CheckNextBlock(_, _) => w' := PreserveCheckNextBlock(s, w);
    case AdvanceFront(_, _) => w' := PreserveAdvanceFront(s, w);
    case ReadElement(_) => PreserveReadElement(s, w);
    case PublishFront(_, _) => w' := PreservePublishFront(s, w);
  }

  lemma PreserveStep<T>(s: State<T>, w: View<T>, a: Action<T>) returns (w': View<T>)
    requires Inv(s, w) && Enabled(s, a)
    ensures Inv(Step(s, a), w')
  {
    w' := w;
    match a
    case CallEnqueue(v, canAlloc) => ProducerMoves(s, w, CheckRoom(v, canAlloc));
    case CallConsume(mode) => ConsumerMoves(s, w, CheckFront(mode));
    case RunProducer => w' := PreserveProduce(s, w);
    case RunConsumer => w' := PreserveConsume(s, w);
    case Allocate(block, size) => w' := PreserveAllocate(s, w, block, size);
    case AllocationFails => ProducerMoves(s, w, ProducerIdle);
  }

  predicate EmptyBlock<T>(b: Block<T>) {
    |b.data| >= 2 && b.front == 0 && b.tail == 0 && b.localFront == 0 && b.localTail == 0
  }

  /** A constructed queue: one or more empty blocks of at least two slots in a ring. */
  ghost predicate InitWith<T>(s: State<T>, ring: seq<BlockId>) {
    && ring != [] && s.frontBlock == ring[0] && s.tailBlock == ring[0]
    && (forall i, j :: 0 <= i < j < |ring| ==> ring[i] != ring[j])
    && (forall i :: 0 <= i < |ring| ==> ring[i] in s.blocks)
    && (forall i {:trigger After(ring, i)} :: 0 <= i < |ring| ==> s.blocks[ring[i]].next == After(ring, i))
    && (forall id :: id in s.blocks ==> EmptyBlock(s.blocks[id]))
    && s.producer == ProducerIdle && s.consumer == ConsumerIdle && s.enqueued == [] && s.dequeued == []
  }

  ghost predicate Init<T>(s: State<T>) {
    exists ring :: InitWith(s, ring)
  }

  lemma InitInv<T>(s: State<T>) returns (w: View<T>)
    requires Init(s)
    ensures Inv(s, w)
  {
    var ring :| InitWith(s, ring);
    w := View(ring, 0, map id | id in s.blocks :: Log(0, 0, 0, 0, []));
    forall id | id in s.blocks ensures GoodAt(s, w, id) {}
    forall i | 0 <= i < |ring| ensures LinkedAt(s, w, i) { assert s.blocks[ring[i]].next == After(ring, i); }
    forall i | 0 < i < |ring| ensures EmptyAt(w, i) {}
    assert Items(w, 1) == Items(w, 0) + Left(LogOf(w, ring[0])) == [];
  }

  ghost predicate Follows<T>(p: State<T>, a: Action<T>, s: State<T>) {
    Enabled(p, a) && s == Step(p, a)
  }

  ghost predicate Reaches<T(!new)>(run: Trace<Action<T>>, s: State<T>) {
    match run
    case Start => Init(s)
    case Then(before, a) => exists p :: Reaches(before, p) && Follows(p, a, s)
  }

  ghost predicate Reachable<T(!new)>(s: State<T>) {
    exists run: Trace<Action<T>> :: Reaches(run, s)
  }

  lemma {:induction false} RunInv<T(!new)>(run: Trace<Action<T>>, s: State<T>) returns (w: View<T>)
    requires Reaches(run, s)
    ensures Inv(s, w)
  {
    match run
    case Start => w := InitInv(s);
    case Then(before, a) =>
      var p :| Reaches(before, p) && Follows(p, a, s);
      var earlier := RunInv(before, p);
      w := PreserveStep(p, earlier, a);
  }

  lemma ReachableInv<T(!new)>(s: State<T>) returns (w: View<T>)
    requires Reachable(s)
    ensures Inv(s, w)
  {
    var run :| Reaches(run, s);
    w := RunInv(run, s);
  }

  /** The queue is first-in first-out: what was dequeued is a prefix of what was enqueued, and the rest is
      what the blocks from the front block to the tail block hold, in ring order. */
  lemma FirstInFirstOut<T(!new)>(s: State<T>) returns (w: View<T>)
    requires Reachable(s)
    ensures s.dequeued <= s.enqueued
    ensures RingOk(s, w) && s.enqueued[|s.dequeued|..] == Items(w, w.k + 1)
  {
    w := ReachableInv(s);
  }

  /** No block between the front block and the tail block is empty, and the blocks beyond the tail block
      hold nothing that was ever published as enqueued. */
  lemma NoFilledBlockSkipped<T(!new)>(s: State<T>, w: View<T>, i: nat)
    requires Reachable(s) && Inv(s, w) && i < |w.ring|
    ensures w.ring[i] in s.blocks
    ensures 0 < i <= w.k ==> s.blocks[w.ring[i]].front != s.blocks[w.ring[i]].tail
    ensures i > w.k && !s.producer.AdvanceTail? ==> s.blocks[w.ring[i]].front == s.blocks[w.ring[i]].tail
  {
    assert LinkedAt(s, w, i) && GoodAt(s, w, w.ring[i]);
    var b, g := s.blocks[w.ring[i]], w.logs[w.ring[i]];
    SlotsMeet(g.front, g.tail, |b.data|);
    if 0 < i <= w.k { assert HoldsAt(w, i); }
    if i > w.k && !s.producer.AdvanceTail? { assert EmptyAt(w, i); }
  }

  /** The producer's assertion when it moves to the next block: that block is empty. */
  lemma NextBlockIsEmpty<T(!new)>(s: State<T>)
    requires Reachable(s) && s.producer.EnterNext?
    ensures s.tailBlock in s.blocks && s.blocks[s.tailBlock].next in s.blocks
    ensures var next := s.blocks[s.blocks[s.tailBlock].next]; next.front == next.tail
  {
    var w := ReachableInv(s);
    assert LinkedAt(s, w, w.k);
    NoFilledBlockSkipped(s, w, w.k + 1);
  }

  /** The consumer's assertion when it moves to the next block: that block has an element. */
  lemma NextBlockHasElement<T(!new)>(s: State<T>)
    requires Reachable(s) && s.consumer.CheckNextBlock?
    ensures s.consumer.block in s.blocks
    ensures s.blocks[s.consumer.block].front != s.blocks[s.consumer.block].tail
  {
    var w := ReachableInv(s);
    NoFilledBlockSkipped(s, w, 1);
  }

  /** Every started operation can take its next step: no missing block, no slot outside a block, no read of
      a slot without an element. */
  lemma NeverStuck<T(!new)>(s: State<T>)
    requires Reachable(s)
    ensures !s.producer.ProducerIdle? && !s.producer.AllocateBlock? ==> Enabled(s, RunProducer)
    ensures !s.consumer.ConsumerIdle? ==> Enabled(s, RunConsumer)
  {
    var w := ReachableInv(s);
    ProducerNeverStuck(s, w);
    ConsumerNeverStuck(s, w);
  }

  lemma ProducerNeverStuck<T>(s: State<T>, w: View<T>)
    requires Inv(s, w)
    ensures !s.producer.ProducerIdle? && !s.producer.AllocateBlock? ==> Enabled(s, RunProducer)
  {
    assert LinkedAt(s, w, w.k) && GoodAt(s, w, w.ring[w.k]);
    if s.producer.EnterNext? || s.producer.WriteInNext? || s.producer.PublishInNext? {
      assert LinkedAt(s, w, w.k + 1) && GoodAt(s, w, w.ring[w.k + 1]);
    }
  }

  lemma ConsumerNeverStuck<T>(s: State<T>, w: View<T>)
    requires Inv(s, w)
    ensures !s.consumer.ConsumerIdle? ==> Enabled(s, RunConsumer)
  {
    assert LinkedAt(s, w, 0) && GoodAt(s, w, w.ring[0]);
    if s.consumer.CheckNextBlock? { assert LinkedAt(s, w, 1) && GoodAt(s, w, w.ring[1]); }
  }

  /** If the first block or, behind an empty first block, the second holds elements, the queue begins with
      them. */
  lemma {:induction false} ItemsHead<T>(w: View<T>, m: nat)
    requires 0 < m <= |w.ring|
    ensures Begins(Items(w, m), Left(LogOf(w, w.ring[0])))
    ensures m >= 2 && Left(LogOf(w, w.ring[0])) == [] ==> Begins(Items(w, m), Left(LogOf(w, w.ring[1])))
  {
    if m == 1 {
      assert Items(w, 1) == Items(w, 0) + Left(LogOf(w, w.ring[0]));
    } else if m == 2 {
      ItemsHead(w, 1);
      assert Items(w, 2) == Items(w, 1) + Left(LogOf(w, w.ring[1]));
      assert Items(w, 1) == Items(w, 0) + Left(LogOf(w, w.ring[0]));
    } else {
      ItemsHead(w, m - 1);
      assert Items(w, m) == Items(w, m - 1) + Left(LogOf(w, w.ring[m - 1]));
    }
  }

  /** If `part` has a first element, it is the first element of `all`. */
  predicate Begins<T(==)>(all: seq<T>, part: seq<T>) {
    part != [] ==> all != [] && all[0] == part[0]
  }

  /** The front element of the queue, from the view. */
  lemma OldestIs<T>(s: State<T>, w: View<T>, x: T)
    requires w.k < |w.ring| && s.dequeued + Items(w, w.k + 1) == s.enqueued
    requires Items(w, w.k + 1) != [] && Items(w, w.k + 1)[0] == x
    ensures |s.dequeued| < |s.enqueued| && s.enqueued[|s.dequeued|] == x
  {}

  lemma BlockFront<T>(b: Block<T>, g: Log<T>)
    requires BlockOk(b, g) && g.front < g.tail
    ensures Left(g) != [] && b.front < |b.data| && b.data[b.front] == Some(Left(g)[0])
  {}

  /** What try_dequeue moves out and what peek points at is the oldest element not yet dequeued. */
  lemma ReadsTheOldest<T(!new)>(s: State<T>)
    requires Reachable(s)
    requires s.consumer.ReadElement? || s.consumer.CheckNextBlock?
    ensures |s.dequeued| < |s.enqueued|
    ensures var id := if s.consumer.ReadElement? then s.frontBlock else s.consumer.block;
      && BlockUsable(s, id)
      && s.blocks[id].data[s.blocks[id].front] == Some(s.enqueued[|s.dequeued|])
  {
    var w := ReachableInv(s);
    var id := if s.consumer.ReadElement? then s.frontBlock else s.consumer.block;
    ConsumerNeverStuck(s, w);
    OldestInBlock(s, w, id);
  }

  lemma OldestInBlock<T>(s: State<T>, w: View<T>, id: BlockId)
    requires Inv(s, w)
    requires (s.consumer.ReadElement? && id == s.frontBlock) || (s.consumer.CheckNextBlock? && id == s.consumer.block)
    ensures |s.dequeued| < |s.enqueued| && id in s.blocks && s.blocks[id].front < |s.blocks[id].data|
    ensures s.blocks[id].data[s.blocks[id].front] == Some(s.enqueued[|s.dequeued|])
  {
    assert LinkedAt(s, w, 0);
    assert GoodAt(s, w, w.ring[0]);
    if s.consumer.CheckNextBlock? {
      assert LinkedAt(s, w, 1);
      assert HoldsAt(w, 1);
      assert GoodAt(s, w, id);
    }
    BlockFront(s.blocks[id], w.logs[id]);
    ItemsHead(w, w.k + 1);
    OldestIs(s, w, Left(w.logs[id])[0]);
  }

  /** The queue is non-empty, and the consumer has not seen it otherwise. */
  ghost predicate WillSucceed<T>(s: State<T>) {
    && !s.consumer.ConsumerIdle? && |s.dequeued| < |s.enqueued|
    && (s.consumer.LoadTailBlock? ==> |s.dequeued| < s.consumer.mark)
  }

  /** try_dequeue, pop and peek fail only if the queue was empty at some moment of the call: a call that
      begins while there is an element stays on its way until it has read that element, whatever the
      producer does. */
  lemma NonEmptyCallSucceeds<T(!new)>(s: State<T>, a: Action<T>)
    requires Reachable(s) && Enabled(s, a)
    ensures a.CallConsume? && |s.dequeued| < |s.enqueued| ==> WillSucceed(Step(s, a))
    ensures WillSucceed(s) ==>
      || WillSucceed(Step(s, a))
      || (a.RunConsumer? && s.consumer.PublishFront?)
      || (a.RunConsumer? && s.consumer.ReadElement? && s.consumer.mode.Peek?)
      || (a.RunConsumer? && s.consumer.CheckNextBlock? && s.consumer.mode.Peek?)
  {
    var w := ReachableInv(s);
  }

  /** inner_enqueue takes effect in the order of the calls, whole and once: the step that ends a successful
      call is the only one that changes the sequence of enqueued values, and it appends the call's value. */
  lemma EnqueueAppends<T(!new)>(s: State<T>, a: Action<T>)
    requires Reachable(s) && Enabled(s, a)
    ensures Step(s, a).enqueued ==
      if a.RunProducer? && (s.producer.PublishTail? || s.producer.AdvanceTail?) then s.enqueued + [s.producer.v]
      else s.enqueued
    ensures a.RunConsumer? && s.consumer.PublishFront? ==> |s.dequeued| < |s.enqueued|
    ensures Step(s, a).dequeued ==
      if a.RunConsumer? && s.consumer.PublishFront? then s.dequeued + [s.enqueued[|s.dequeued|]] else s.dequeued
  {
    var w := ReachableInv(s);
    if a.RunConsumer? && s.consumer.PublishFront? {
      PublishesTheOldest(s, w);
    }
  }

  lemma PublishesTheOldest<T>(s: State<T>, w: View<T>)
    requires Inv(s, w) && s.consumer.PublishFront?
    ensures |s.dequeued| < |s.enqueued| && s.enqueued[|s.dequeued|] == s.consumer.x
  {
    assert LinkedAt(s, w, 0) && GoodAt(s, w, s.frontBlock);
    BlockFront(s.blocks[s.frontBlock], w.logs[s.frontBlock]);
    ItemsHead(w, w.k + 1);
    OldestIs(s, w, s.consumer.x);
  }
}
