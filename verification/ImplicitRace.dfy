/** What consumers meet while the implicit producer of concurrentqueue.h changes its block index: a machine whose steps
    are the single accesses to the index, its entries and the tail index. An enqueue, or a bulk enqueue, starts blocks
    one after the other: it tests the entry behind the tail, grows the index if need be, stores the key, moves the
    tail, gets a block and stores it in the entry; when no block can be had it moves the tail back and clears the
    entry, and takes back, one by one, the blocks it had started before. Then it publishes its elements. Any number of
    consumers look their blocks up, and clear the entries of blocks they empty, between any two of these steps. */
module ImplicitRace {
  import opened Prelude
  import opened CircularIndex
  import opened ImplicitIndex

  /** A consumer that has claimed an element: it loads the index, its tail and the key there, computes which entry is
      its own, loads the block from it, and takes its element. The one that empties the block clears the entry and
      gives the block back. */
  datatype Consumer =
    | Claimed
    | Looking(r: Reader)
    | Located(e: nat)
    | Holding(e: nat, b: nat)
    | Freeing(e: nat, b: nat)
    | Returning(b: nat)

  /** Between its operations, and between two blocks of one operation, the producer is Quiet. Clearing and Rewinding
      take back blocks number i .. last - 1. */
  datatype Producer =
    | Quiet
    | Tested(free: bool)
    | KeyStored(e: nat)
    | TailStored(e: nat)
    | HasBlock(e: nat, b: nat)
    | GaveUp(e: nat)
    | Clearing(i: nat, last: nat)
    | Rewinding(i: nat, last: nat)

  /** `claims` says how far the consumer of each claimed element is. For the proof: what the entries were used for, the
      blocks in use by number, the elements taken, the first block of the operation under way, who is freeing which
      block, and the blocks that are in nobody's index and not in the pool, some of which the producer has to give
      back. */
  datatype State = State(
    entries: seq<Entry>, headers: seq<Header>, pool: set<nat>, tail: nat, head: nat, producer: Producer,
    claims: map<nat, Consumer>,
    v: View, homes: map<nat, nat>, done: set<nat>, first: nat, freeing: map<nat, nat>, limbo: set<nat>,
    dropped: set<nat>)

  datatype Action =
    | Test | StoreKey | Grow(junk: Option<nat>) | StoreTail | GetBlock(b: nat) | StoreValue | NoBlock | ClearOwn
    | Refuse | ClearValue | StepBack | GiveBack(b: nat) | Publish(t: nat)
    | Claim | LoadIndex(x: nat) | LoadTail(x: nat) | LoadKey(x: nat) | Locate(x: nat) | LoadValue(x: nat)
    | Empty(x: nat) | ClearEntry(x: nat) | Return(x: nat)

  // ----- Steps -----

  function Last(s: State): (h: Header)
    requires s.headers != []
  {
    s.headers[|s.headers| - 1]
  }

  /** The entry behind the tail of the current index. */
  function Behind(s: State): Option<nat> {
    if s.headers != [] && NewTail(s.headers) < |Last(s).index| && Last(s).index[NewTail(s.headers)] < |s.entries|
    then Some(Last(s).index[NewTail(s.headers)]) else None
  }

  /** The index of twice the size, the entries rotated to its lower half, oldest first. */
  function GrownHeader(h: Header, entries: nat): Header {
    var start := NextSlot(h.tail, h.capacity);
    Header(2 * h.capacity, if h.capacity > 0 then h.capacity - 1 else 0,
           seq(h.capacity, i requires 0 <= i < h.capacity =>
             var j := if start + i < h.capacity then start + i else start + i - h.capacity;
             if 0 <= j < |h.index| then h.index[j] else 0)
           + seq(h.capacity, i => entries + i))
  }

  /** get_block_index_index_for_index, through index h, its tail slot and the key there. */
  function Lookup(s: State, h: nat, slot: nat, key: nat, n: nat): Option<nat> {
    if h < |s.headers| && s.headers[h].capacity > 0 && LookupIn(s.headers[h], slot, key, Base(n)) < |s.headers[h].index|
    then Some(s.headers[h].index[LookupIn(s.headers[h], slot, key, Base(n))]) else None
  }

  /** The key in slot `slot` of index h. */
  function KeyAt(s: State, h: nat, slot: nat): Option<nat> {
    if h < |s.headers| && slot < |s.headers[h].index| && s.headers[h].index[slot] < |s.entries|
    then Some(s.entries[s.headers[h].index[slot]].key) else None
  }

  /** The producer's own lookup of the entry of block number n. */
  function OwnEntry(s: State, n: nat): Option<nat> {
    if s.headers == [] then None
    else
      match KeyAt(s, |s.headers| - 1, Last(s).tail)
      case None => None
      case Some(key) => Lookup(s, |s.headers| - 1, Last(s).tail, key, n)
  }

  /** The number in whose block the entry of slot `slot` of index h was last used. */
  ghost function NumAt(s: State, h: nat, slot: nat): nat {
    if h < |s.headers| && slot < |s.headers[h].index| && s.headers[h].index[slot] < |s.v.nums|
       && s.v.nums[s.headers[h].index[slot]].Some?
    then s.v.nums[s.headers[h].index[slot]].value else 0
  }

  function WithValue(s: State, e: nat, value: Option<nat>): seq<Entry>
    requires e < |s.entries|
  {
    s.entries[e := s.entries[e].(value := value)]
  }

  function AtFailure(s: State): Producer { if s.first < s.v.next then Clearing(s.first, s.v.next) else Quiet }

  ghost predicate ProducerEnabled(s: State, a: Action) {
    match a
    case Test => s.producer.Quiet? && Behind(s).Some?
    case StoreKey => s.producer == Tested(true) && Behind(s).Some? && Behind(s).value < |s.v.nums|
    case Grow(_) => s.producer == Tested(false) && s.headers != [] && 2 * Last(s).capacity <= MAX_ENTRIES
        && s.v.marks != []
    case StoreTail => s.producer.KeyStored? && s.headers != []
    case GetBlock(b) => s.producer.TailStored? && b in s.pool
    case StoreValue => s.producer.HasBlock? && s.producer.e < |s.entries| && s.v.next > 0
    case NoBlock => s.producer.TailStored? && s.headers != [] && Last(s).capacity > 0 && s.v.next > 0
    case ClearOwn => s.producer.GaveUp? && s.producer.e < |s.entries|
    case Refuse => s.producer == Tested(false) || s.producer.Quiet?
    case ClearValue => s.producer.Clearing? && OwnEntry(s, s.producer.i).Some?
        && OwnEntry(s, s.producer.i).value < |s.entries|
        && s.producer.i in s.homes
    case StepBack => s.producer.Rewinding? && s.headers != [] && Last(s).capacity > 0 && s.v.next > 0
    case GiveBack(b) => b in s.dropped
    case Publish(t) => s.producer.Quiet? && s.tail < t <= 32 * s.v.next < t + 32
    case _ => false
  }

  ghost predicate ConsumerEnabled(s: State, a: Action) {
    match a
    case Claim => s.head < s.tail
    case LoadIndex(x) => x in s.claims && s.claims[x].Claimed? && s.headers != []
    case LoadTail(x) => x in s.claims && s.claims[x].Looking? && s.claims[x].r.Indexed? && s.claims[x].r.h < |s.headers|
    case LoadKey(x) => x in s.claims && s.claims[x].Looking? && s.claims[x].r.Tailed?
        && KeyAt(s, s.claims[x].r.h, s.claims[x].r.slot).Some?
    case Locate(x) => x in s.claims && s.claims[x].Looking? && s.claims[x].r.Keyed?
        && Lookup(s, s.claims[x].r.h, s.claims[x].r.slot, s.claims[x].r.key, x / 32).Some?
    case LoadValue(x) => x in s.claims && s.claims[x].Located? && s.claims[x].e < |s.entries|
        && s.entries[s.claims[x].e].value.Some?
    case Empty(x) => x in s.claims && s.claims[x].Holding?
    case ClearEntry(x) => x in s.claims && s.claims[x].Freeing? && s.claims[x].e < |s.entries|
    case Return(x) => x in s.claims && s.claims[x].Returning?
    case _ => false
  }

  ghost function ProducerStep(s: State, a: Action): State
    requires ProducerEnabled(s, a)
  {
    match a
    case Test =>
      var e := s.entries[Behind(s).value];
      s.(producer := Tested(e.key == INVALID_BLOCK_BASE || e.value == None))
    case StoreKey =>
      var e := Behind(s).value;
      s.(entries := s.entries[e := s.entries[e].(key := Base(s.v.next))], v := Used(s.v, e), producer := KeyStored(e))
    case Grow(junk) => Growth(s, junk)
    case StoreTail =>
      s.(headers := TailMoved(s.headers, NewTail(s.headers)), producer := TailStored(s.producer.e))
    case GetBlock(b) =>
      s.(pool := s.pool - {b}, limbo := s.limbo + {b}, producer := HasBlock(s.producer.e, b))
    case StoreValue =>
      s.(entries := WithValue(s, s.producer.e, Some(s.producer.b)), homes := s.homes[s.v.next - 1 := s.producer.b],
         limbo := s.limbo - {s.producer.b}, producer := Quiet)
    case NoBlock =>
      s.(headers := TailMoved(s.headers, PrevSlot(Last(s).tail, Last(s).capacity)), v := s.v.(next := s.v.next - 1),
         producer := GaveUp(s.producer.e))
    case ClearOwn => s.(entries := WithValue(s, s.producer.e, None), producer := AtFailure(s))
    case Refuse => s.(producer := AtFailure(s))
    case ClearValue =>
      var i := s.producer.i;
      s.(entries := WithValue(s, OwnEntry(s, i).value, None), homes := s.homes - {i}, limbo := s.limbo + {s.homes[i]},
         dropped := s.dropped + {s.homes[i]}, producer := Rewinding(i, s.producer.last))
    case StepBack =>
      s.(headers := TailMoved(s.headers, PrevSlot(Last(s).tail, Last(s).capacity)), v := s.v.(next := s.v.next - 1),
         producer := if s.producer.i + 1 < s.producer.last then Clearing(s.producer.i + 1, s.producer.last) else Quiet)
    case GiveBack(b) => s.(pool := s.pool + {b}, limbo := s.limbo - {b}, dropped := s.dropped - {b})
    case Publish(t) => s.(tail := t, first := s.v.next)
  }

  /** blockIndex is replaced; the new index and its entries were built before, out of sight. */
  ghost function Growth(s: State, junk: Option<nat>): State
    requires s.headers != [] && s.v.marks != []
  {
    var capacity := Last(s).capacity;
    var k := Mark(if s.v.next >= capacity then s.v.next - capacity else 0, s.v.marks[|s.v.marks| - 1].order + 1);
    s.(entries := s.entries + seq(capacity, _ => Entry(INVALID_BLOCK_BASE, junk)),
       headers := s.headers + [GrownHeader(Last(s), |s.entries|)],
       v := s.v.(nums := s.v.nums + seq(capacity, _ => None), marks := s.v.marks + [k]), producer := Tested(true))
  }

  function At(s: State, x: nat, c: Consumer): State { s.(claims := s.claims[x := c]) }

  ghost function ConsumerStep(s: State, a: Action): State
    requires ConsumerEnabled(s, a)
  {
    match a
    case Claim => At(s, s.head, Claimed).(head := s.head + 1)
    case LoadIndex(x) => At(s, x, Looking(Indexed(|s.headers| - 1)))
    case LoadTail(x) => At(s, x, Looking(Tailed(s.claims[x].r.h, s.headers[s.claims[x].r.h].tail)))
    case LoadKey(x) =>
      var r := s.claims[x].r;
      At(s, x, Looking(Keyed(r.h, r.slot, KeyAt(s, r.h, r.slot).value, NumAt(s, r.h, r.slot))))
    case Locate(x) =>
      var r := s.claims[x].r;
      At(s, x, Located(Lookup(s, r.h, r.slot, r.key, x / 32).value))
    case LoadValue(x) => At(s, x, Holding(s.claims[x].e, s.entries[s.claims[x].e].value.value))
    case Empty(x) =>
      var done := s.done + {x};
      if DrainedBlock(done, x / 32)
      then At(s, x, Freeing(s.claims[x].e, s.claims[x].b)).(done := done, freeing := s.freeing[x / 32 := x])
      else s.(done := done, claims := s.claims - {x})
    case ClearEntry(x) =>
      var b := s.claims[x].b;
      At(s, x, Returning(b)).(
        entries := WithValue(s, s.claims[x].e, None), homes := s.homes - {x / 32}, freeing := s.freeing - {x / 32},
        limbo := s.limbo + {b})
    case Return(x) =>
      var b := s.claims[x].b;
      s.(claims := s.claims - {x}, pool := s.pool + {b}, limbo := s.limbo - {b})
  }

  ghost predicate Follows(p: State, a: Action, s: State) {
    || (ProducerEnabled(p, a) && s == ProducerStep(p, a))
    || (ConsumerEnabled(p, a) && s == ConsumerStep(p, a))
  }

  ghost predicate Init(s: State, order: nat, junk: Option<nat>, pool: set<nat>) {
    && order <= 58
    && s == State(seq(Pow2(order), _ => Entry(INVALID_BLOCK_BASE, junk)),
                  [Header(Pow2(order), Pow2(order) - 1, seq(Pow2(order), (i: nat) => i))], pool, 0, 0, Quiet, map[],
                  View(seq(Pow2(order), _ => None), [Mark(0, order)], 0, 0), map[], {}, 0, map[], {}, {})
  }

  ghost predicate Reaches(run: Trace<Action>, s: State) {
    match run
    case Start => exists order: nat, junk: Option<nat>, pool: set<nat> :: Init(s, order, junk, pool)
    case Then(before, a) => exists p :: Reaches(before, p) && Follows(p, a, s)
  }

  ghost predicate Reachable(s: State) { exists run :: Reaches(run, s) }

  // ----- The invariant -----

  /** The entry that the producer has taken and whose value it has not stored yet. */
  function Skip(p: Producer): Option<nat> {
    match p
    case KeyStored(e) => Some(e)
    case TailStored(e) => Some(e)
    case HasBlock(e, _) => Some(e)
    case GaveUp(e) => Some(e)
    case _ => None
  }

  /** The headers, with the tail where the producer is about to move it. */
  function Seen(s: State): (hs: seq<Header>)
    requires s.headers != []
    ensures |hs| == |s.headers|
  {
    if s.producer.KeyStored? then TailMoved(s.headers, NewTail(s.headers)) else s.headers
  }

  ghost function Readers(claims: map<nat, Consumer>): map<nat, Reader> {
    map x | x in claims && claims[x].Looking? :: claims[x].r
  }

  /** The entry that a consumer has found is its own, and the block it has loaded too. */
  ghost predicate Entitled(c: Consumer, x: nat, nums: seq<Option<nat>>, homes: map<nat, nat>) {
    && (c.Located? || c.Holding? || c.Freeing? ==> c.e < |nums| && nums[c.e] == Some(x / 32) && x / 32 in homes)
    && (c.Holding? || c.Freeing? ==> homes[x / 32] == c.b)
  }

  ghost predicate AllEntitled(claims: map<nat, Consumer>, nums: seq<Option<nat>>, homes: map<nat, nat>) {
    forall x {:trigger Entitled(claims[x], x, nums, homes)} :: x in claims ==> Entitled(claims[x], x, nums, homes)
  }

  ghost predicate IndexInv(s: State) {
    && s.headers != [] && IndexBut(s.entries, Seen(s), s.v, s.homes, Skip(s.producer))
    && ReadersOk(Readers(s.claims), s.headers, s.v, s.homes) && AllEntitled(s.claims, s.v.nums, s.homes)
  }

  /** Entry e has just been taken for the block before `next`. */
  ghost predicate Taken(h: Header, k: Mark, v: View, e: nat) {
    && 0 < v.next < v.top + 1 && v.top < v.next + h.capacity && e < |v.nums| && v.nums[e] == Some(v.next - 1)
    && NumberAt(h, k, v.nums, v.next - 1, Some(v.next - 1))
  }

  /** There is room to take everything back to the first block of the operation. */
  ghost predicate RewindOk(h: Header, k: Mark, v: View, first: nat) {
    k.origin <= first && v.top <= first + h.capacity
  }

  ghost predicate ProducerInv(s: State)
    requires s.headers != []
  {
    && |s.v.marks| == |s.headers|
    && var h, k := Seen(s)[|s.headers| - 1], s.v.marks[|s.headers| - 1];
    match s.producer
    case Quiet => s.first <= s.v.next
    case Tested(free) =>
      && s.first <= s.v.next
      && (if free then Behind(s).Some? && FreeEntry(s.v, s.homes, Behind(s).value)
          else s.v.next == s.v.top && FullRing(h, k, s.v.nums, s.v.next))
    case KeyStored(e) =>
      && s.first < s.v.next && Taken(h, k, s.v, e)
      && (k.origin < s.v.next - 1 ==> UsedSlot(Last(s), s.v.nums, Last(s).tail))
    case TailStored(e) => s.first < s.v.next && Taken(h, k, s.v, e)
    case HasBlock(e, _) => s.first < s.v.next && Taken(h, k, s.v, e)
    case GaveUp(e) => s.first <= s.v.next && e < |s.v.nums| && s.v.nums[e] == Some(s.v.next)
    case Clearing(i, last) => s.first <= i < last && s.v.next == last - (i - s.first) && RewindOk(h, k, s.v, s.first)
    case Rewinding(i, last) => s.first <= i < last && s.v.next == last - (i - s.first) && RewindOk(h, k, s.v, s.first)
  }

  /** The blocks that the operation under way has started and not taken back are number Low to High - 1. */
  function Low(s: State): nat {
    match s.producer
    case Clearing(i, _) => i
    case Rewinding(i, _) => i + 1
    case _ => s.first
  }

  function High(s: State): int {
    match s.producer
    case KeyStored(_) => s.v.next - 1
    case TailStored(_) => s.v.next - 1
    case HasBlock(_, _) => s.v.next - 1
    case Clearing(_, last) => last
    case Rewinding(_, last) => last
    case _ => s.v.next
  }

  /** A block is in use from its start until it has been emptied and its entry has been cleared. */
  ghost predicate HomesInv(s: State) {
    && (forall n: nat :: n in s.homes <==>
          (n < s.first && (!DrainedBlock(s.done, n) || n in s.freeing)) || Low(s) <= n < High(s))
    && (forall n: nat :: n in s.freeing ==> n < s.first && DrainedBlock(s.done, n))
    && (forall n: nat :: n in s.freeing ==>
          s.freeing[n] in s.claims && s.claims[s.freeing[n]].Freeing? && s.freeing[n] / 32 == n)
    && (forall x: nat :: x in s.claims && s.claims[x].Freeing? ==> x / 32 in s.freeing && s.freeing[x / 32] == x)
  }

  /** Every element below `head` has been taken, or its consumer is on the way. */
  ghost predicate ClaimInv(s: State) {
    && s.head <= s.tail <= 32 * s.first
    && (forall x: nat :: x in s.done ==> x < s.head)
    && (forall x: nat :: x in s.claims ==> x < s.head)
    && (forall x: nat :: x in s.claims ==> (x in s.done <==> s.claims[x].Freeing? || s.claims[x].Returning?))
    && (forall x: nat :: x < s.head && x !in s.claims ==> x in s.done)
  }

  ghost predicate Returns(claims: map<nat, Consumer>, x: nat, b: nat) {
    x in claims && claims[x] == Returning(b)
  }

  /** No block is in two places. */
  ghost predicate PoolInv(s: State) {
    && (forall n, m :: n in s.homes && m in s.homes && n != m ==> s.homes[n] != s.homes[m])
    && (forall n :: n in s.homes ==> s.homes[n] !in s.pool && s.homes[n] !in s.limbo)
    && s.pool !! s.limbo && s.dropped <= s.limbo
    && (forall x, b {:trigger Returns(s.claims, x, b)} :: Returns(s.claims, x, b) ==> b in s.limbo && b !in s.dropped)
    && (forall x, y, b {:trigger Returns(s.claims, x, b), Returns(s.claims, y, b)} ::
          Returns(s.claims, x, b) && Returns(s.claims, y, b) ==> x == y)
    && (s.producer.HasBlock? ==>
          && s.producer.b in s.limbo && s.producer.b !in s.dropped
          && forall x {:trigger Returns(s.claims, x, s.producer.b)} :: !Returns(s.claims, x, s.producer.b))
  }

  ghost predicate Inv(s: State) { IndexInv(s) && ProducerInv(s) && HomesInv(s) && ClaimInv(s) && PoolInv(s) }

  lemma ClaimedInUse(s: State, x: nat)
    requires HomesInv(s) && ClaimInv(s) && x in s.claims && !s.claims[x].Returning?
    ensures x / 32 in s.homes && x / 32 < s.first
  {
    assert x !in s.done ==> !DrainedBlock(s.done, x / 32);
  }

  // ----- Consumers on their way to their entry -----

  predicate OnTheWay(c: Consumer) { !c.Freeing? && !c.Returning? }

  lemma ReaderSet(claims: map<nat, Consumer>, x: nat, c: Consumer)
    ensures Readers(claims[x := c]) == if c.Looking? then Readers(claims)[x := c.r] else Readers(claims) - {x}
    ensures Readers(claims - {x}) == Readers(claims) - {x}
  {}

  /** A consumer moves on. */
  lemma PreserveMove(s: State, x: nat, c: Consumer)
    requires Inv(s) && x in s.claims && OnTheWay(s.claims[x]) && OnTheWay(c)
    requires c.Looking? ==> ReaderOk(c.r, x, s.headers, s.v.marks, s.v.nums)
    requires Entitled(c, x, s.v.nums, s.homes)
    ensures Inv(At(s, x, c))
  {
    hide IndexInv, ProducerInv, HomesInv, ClaimInv, PoolInv, ReaderOk, Entitled;
    var s' := At(s, x, c);
    MoveIndex(s, x, c);
    SameProducer(s, s');
    MoveHomes(s, x, c);
    MovePool(s, x, c);
  }

  /** What the producer relies on does not depend on the consumers' program points. */
  lemma SameProducer(s: State, s': State)
    requires IndexInv(s) && ProducerInv(s) && s'.headers == s.headers && s'.v == s.v && s'.producer == s.producer
    requires s'.first == s.first && |s'.entries| == |s.entries| && forall n :: n in s'.homes ==> n in s.homes
    ensures s'.headers != [] && ProducerInv(s')
  {
    hide IndexBut, ReaderOk, Entitled;
  }

  lemma MoveIndex(s: State, x: nat, c: Consumer)
    requires IndexInv(s) && HomesInv(s) && ClaimInv(s) && x in s.claims && OnTheWay(s.claims[x]) && OnTheWay(c)
    requires c.Looking? ==> ReaderOk(c.r, x, s.headers, s.v.marks, s.v.nums)
    requires Entitled(c, x, s.v.nums, s.homes)
    ensures IndexInv(At(s, x, c))
  {
    hide IndexBut, ReaderOk;
    ClaimedInUse(s, x);
    ReaderSet(s.claims, x, c);
    var s' := At(s, x, c);
    forall y {:trigger Entitled(s'.claims[y], y, s.v.nums, s.homes)} | y in s'.claims
      ensures Entitled(s'.claims[y], y, s.v.nums, s.homes)
    {
      if y != x { assert Entitled(s.claims[y], y, s.v.nums, s.homes); }
    }
  }

  lemma MoveHomes(s: State, x: nat, c: Consumer)
    requires HomesInv(s) && ClaimInv(s) && x in s.claims && OnTheWay(s.claims[x]) && OnTheWay(c)
    ensures HomesInv(At(s, x, c)) && ClaimInv(At(s, x, c))
  {}

  lemma MovePool(s: State, x: nat, c: Consumer)
    requires PoolInv(s) && x in s.claims && OnTheWay(s.claims[x]) && OnTheWay(c)
    ensures PoolInv(At(s, x, c))
  {
    forall y, b ensures Returns(At(s, x, c).claims, y, b) <==> Returns(s.claims, y, b) {}
  }

  lemma PreserveClaim(s: State)
    requires Inv(s) && s.head < s.tail
    ensures Inv(At(s, s.head, Claimed).(head := s.head + 1))
  {
    hide IndexInv, ProducerInv, HomesInv, ClaimInv, PoolInv;
    var s' := At(s, s.head, Claimed).(head := s.head + 1);
    ClaimHomes(s);
    ClaimIndex(s);
    SameProducer(s, s');
    ClaimPool(s);
  }

  lemma ClaimHomes(s: State)
    requires HomesInv(s) && ClaimInv(s) && s.head < s.tail
    ensures s.head !in s.claims
    ensures var s' := At(s, s.head, Claimed).(head := s.head + 1); HomesInv(s') && ClaimInv(s')
  {}

  lemma ClaimPool(s: State)
    requires PoolInv(s) && s.head !in s.claims
    ensures PoolInv(At(s, s.head, Claimed).(head := s.head + 1))
  {
    forall y, b ensures Returns(At(s, s.head, Claimed).claims, y, b) <==> Returns(s.claims, y, b) {}
  }

  lemma ClaimIndex(s: State)
    requires IndexInv(s) && s.head !in s.claims
    ensures IndexInv(At(s, s.head, Claimed).(head := s.head + 1))
  {
    hide IndexBut, ReaderOk;
    var s' := At(s, s.head, Claimed).(head := s.head + 1);
    ReaderSet(s.claims, s.head, Claimed);
    assert Readers(s'.claims) == Readers(s.claims);
    forall y {:trigger Entitled(s'.claims[y], y, s.v.nums, s.homes)} | y in s'.claims
      ensures Entitled(s'.claims[y], y, s.v.nums, s.homes)
    {
      if y != s.head { assert Entitled(s.claims[y], y, s.v.nums, s.homes); }
    }
  }

  /** The tail slot that a consumer loads has been used, whatever the producer is in the middle of. */
  lemma TailSeen(s: State, x: nat, h: nat)
    requires IndexInv(s) && ProducerInv(s) && x / 32 < s.first
    requires ReaderOk(Indexed(h), x, s.headers, s.v.marks, s.v.nums)
    ensures ReaderOk(Tailed(h, s.headers[h].tail), x, s.headers, s.v.marks, s.v.nums)
  {
    var hs := Seen(s);
    assert x / 32 < s.v.next;
    assert NumberAt(hs[h], s.v.marks[h], s.v.nums, x / 32, Some(x / 32));
    TailLoaded(hs, s.v, x, h);
  }

  lemma PreserveLoadIndex(s: State, x: nat)
    requires Inv(s) && ConsumerEnabled(s, LoadIndex(x))
    ensures Inv(ConsumerStep(s, LoadIndex(x)))
  {
    ClaimedInUse(s, x);
    IndexSeen(s, x);
    hide Inv, ReaderOk, Seen;
    PreserveMove(s, x, Looking(Indexed(|s.headers| - 1)));
  }

  /** The current index has the entry of every block in use. */
  lemma IndexSeen(s: State, x: nat)
    requires IndexInv(s) && x / 32 in s.homes
    ensures ReaderOk(Indexed(|s.headers| - 1), x, s.headers, s.v.marks, s.v.nums)
  {
    hide AllEntitled;
    var hs := Seen(s);
    assert HomesOk(hs[|hs| - 1], s.v.marks[|hs| - 1], s.v.nums, s.homes, s.v.top);
    assert NumberAt(hs[|hs| - 1], s.v.marks[|hs| - 1], s.v.nums, x / 32, Some(x / 32));
  }

  lemma PreserveLoadTail(s: State, x: nat)
    requires Inv(s) && ConsumerEnabled(s, LoadTail(x))
    ensures Inv(ConsumerStep(s, LoadTail(x)))
  {
    ClaimedInUse(s, x);
    var h := s.claims[x].r.h;
    assert Readers(s.claims)[x] == Indexed(h);
    TailSeen(s, x, h);
    PreserveMove(s, x, Looking(Tailed(h, s.headers[h].tail)));
  }

  /** The key in the slot that a consumer has loaded is that of the last block the entry was taken for. */
  lemma KeySeen(s: State, x: nat, h: nat, slot: nat)
    requires IndexInv(s) && ReaderOk(Tailed(h, slot), x, s.headers, s.v.marks, s.v.nums)
    ensures KeyAt(s, h, slot).Some? && KeyAt(s, h, slot).value != INVALID_BLOCK_BASE
    ensures ReaderOk(Keyed(h, slot, KeyAt(s, h, slot).value, NumAt(s, h, slot)), x, s.headers, s.v.marks, s.v.nums)
  {
    var hs := Seen(s);
    assert HeaderOk(hs[h], s.v.marks[h], s.v.nums) && SlotOk(hs[h], s.v.marks[h], s.v.nums, slot);
    var m := KeyLoaded(s.entries, hs, s.v, s.homes, Skip(s.producer), x, h, slot);
    var e := s.headers[h].index[slot];
    assert Skip(s.producer) != Some(e) ==> EntryOk(s.entries, s.v.nums, s.homes, e);
    BaseAligned(NumAt(s, h, slot));
  }

  lemma PreserveLoadKey(s: State, x: nat)
    requires Inv(s) && ConsumerEnabled(s, LoadKey(x))
    ensures Inv(ConsumerStep(s, LoadKey(x)))
  {
    var r := s.claims[x].r;
    assert Readers(s.claims)[x] == r;
    KeySeen(s, x, r.h, r.slot);
    PreserveMove(s, x, Looking(Keyed(r.h, r.slot, KeyAt(s, r.h, r.slot).value, NumAt(s, r.h, r.slot))));
  }

  /** The lookup ends at the entry of the consumer's own block, and the block is there. */
  lemma EntrySeen(s: State, x: nat, r: Reader)
    requires IndexInv(s) && x / 32 in s.homes
    requires Skip(s.producer).Some? && Skip(s.producer).value < |s.v.nums| ==>
        s.v.nums[Skip(s.producer).value] != Some(x / 32)
    requires r.Keyed? && ReaderOk(r, x, s.headers, s.v.marks, s.v.nums)
    ensures Lookup(s, r.h, r.slot, r.key, x / 32).Some?
    ensures var e := Lookup(s, r.h, r.slot, r.key, x / 32).value;
      && e < |s.entries| == |s.v.nums| && s.v.nums[e] == Some(x / 32)
      && s.entries[e] == Entry(Base(x / 32), Some(s.homes[x / 32]))
  {
    var hs := Seen(s);
    assert HeaderOk(hs[r.h], s.v.marks[r.h], s.v.nums);
    LookupReaches(hs[r.h], s.v.marks[r.h], x, r.slot, r.key, r.m);
    var i := LookupIn(hs[r.h], r.slot, r.key, Base(x / 32));
    assert NumberAt(hs[r.h], s.v.marks[r.h], s.v.nums, x / 32, Some(x / 32));
    LookupFinds(s.entries, hs, s.v, s.homes, Skip(s.producer), x, r, i);
  }

  lemma PreserveLocate(s: State, x: nat)
    requires Inv(s) && ConsumerEnabled(s, Locate(x))
    ensures Inv(ConsumerStep(s, Locate(x)))
  {
    ClaimedInUse(s, x);
    var r := s.claims[x].r;
    assert Readers(s.claims)[x] == r;
    EntrySeen(s, x, r);
    PreserveMove(s, x, Located(Lookup(s, r.h, r.slot, r.key, x / 32).value));
  }

  /** The entry of a block that is in use has that block as its value. */
  lemma ValueSeen(s: State, n: nat, e: nat)
    requires IndexInv(s) && ProducerInv(s) && n < s.first && n in s.homes && e < |s.v.nums| && s.v.nums[e] == Some(n)
    ensures e < |s.entries| && s.entries[e] == Entry(Base(n), Some(s.homes[n]))
  {
    assert EntryOk(s.entries, s.v.nums, s.homes, e);
  }

  lemma PreserveLoadValue(s: State, x: nat)
    requires Inv(s) && ConsumerEnabled(s, LoadValue(x))
    ensures Inv(ConsumerStep(s, LoadValue(x)))
  {
    ClaimedInUse(s, x);
    var e := s.claims[x].e;
    assert Entitled(s.claims[x], x, s.v.nums, s.homes);
    ValueSeen(s, x / 32, e);
    PreserveMove(s, x, Holding(e, s.homes[x / 32]));
  }

  // ----- Consumers with their element -----

  lemma PreserveEmpty(s: State, x: nat)
    requires Inv(s) && ConsumerEnabled(s, Empty(x))
    ensures Inv(ConsumerStep(s, Empty(x)))
  {
    hide IndexInv, ProducerInv, HomesInv, ClaimInv, PoolInv, DrainedBlock;
    var s' := ConsumerStep(s, Empty(x));
    EmptyIndex(s, x);
    SameProducer(s, s');
    EmptyHomes(s, x);
    EmptyPool(s, x);
  }

  lemma EmptyIndex(s: State, x: nat)
    requires IndexInv(s) && ConsumerEnabled(s, Empty(x))
    ensures IndexInv(ConsumerStep(s, Empty(x)))
  {
    hide IndexBut, ReaderOk, DrainedBlock;
    var s' := ConsumerStep(s, Empty(x));
    ReaderSet(s.claims, x, Freeing(s.claims[x].e, s.claims[x].b));
    assert Readers(s'.claims) == Readers(s.claims);
    assert Entitled(s.claims[x], x, s.v.nums, s.homes);
    forall y {:trigger Entitled(s'.claims[y], y, s.v.nums, s.homes)} | y in s'.claims
      ensures Entitled(s'.claims[y], y, s.v.nums, s.homes)
    {
      if y != x { assert Entitled(s.claims[y], y, s.v.nums, s.homes); }
    }
  }

  /** Taking an element drains at most its own block. */
  lemma DrainedNow(done: set<nat>, x: nat, n: nat)
    requires n != x / 32
    ensures DrainedBlock(done + {x}, n) <==> DrainedBlock(done, n)
  {
    forall y | 32 * n <= y < 32 * n + 32 ensures y in done + {x} <==> y in done { assert y / 32 == n; }
  }

  lemma EmptyHomes(s: State, x: nat)
    requires HomesInv(s) && ClaimInv(s) && ConsumerEnabled(s, Empty(x))
    ensures HomesInv(ConsumerStep(s, Empty(x))) && ClaimInv(ConsumerStep(s, Empty(x)))
  {
    hide DrainedBlock;
    ClaimedInUse(s, x);
    EmptyClaims(s, x);
    hide ClaimInv;
    NotDrained(s.done, x);
    EmptyUse(s, x);
    EmptyFreeing(s, x);
    var s' := ConsumerStep(s, Empty(x));
    forall n: nat ensures n in s'.homes <==>
      (n < s'.first && (!DrainedBlock(s'.done, n) || n in s'.freeing)) || Low(s') <= n < High(s')
    {
      assert n in s.homes <==> (n < s.first && (!DrainedBlock(s.done, n) || n in s.freeing)) || Low(s) <= n < High(s);
    }
  }

  lemma NotDrained(done: set<nat>, x: nat)
    requires x !in done
    ensures !DrainedBlock(done, x / 32)
  {}

  lemma EmptyFreeing(s: State, x: nat)
    requires HomesInv(s) && ConsumerEnabled(s, Empty(x)) && x / 32 < s.first && x !in s.done
    ensures x / 32 !in s.freeing
    ensures var s' := ConsumerStep(s, Empty(x));
      && (forall n: nat :: n in s'.freeing ==> n < s'.first && DrainedBlock(s'.done, n))
      && (forall n: nat :: n in s'.freeing ==>
            s'.freeing[n] in s'.claims && s'.claims[s'.freeing[n]].Freeing? && s'.freeing[n] / 32 == n)
      && (forall y: nat :: y in s'.claims && s'.claims[y].Freeing? ==> y / 32 in s'.freeing && s'.freeing[y / 32] == y)
  {
    hide DrainedBlock;
    NotDrained(s.done, x);
    EmptyUse(s, x);
  }

  lemma EmptyClaims(s: State, x: nat)
    requires ClaimInv(s) && ConsumerEnabled(s, Empty(x))
    ensures ClaimInv(ConsumerStep(s, Empty(x))) && x !in s.done
  {
    hide DrainedBlock;
  }

  lemma EmptyUse(s: State, x: nat)
    requires ConsumerEnabled(s, Empty(x))
    ensures forall n: nat :: n != x / 32 ==> (DrainedBlock(s.done + {x}, n) <==> DrainedBlock(s.done, n))
  {
    forall n: nat | n != x / 32
      ensures DrainedBlock(s.done + {x}, n) <==> DrainedBlock(s.done, n)
    {
      DrainedNow(s.done, x, n);
    }
  }

  lemma EmptyPool(s: State, x: nat)
    requires PoolInv(s) && ConsumerEnabled(s, Empty(x))
    ensures PoolInv(ConsumerStep(s, Empty(x)))
  {
    hide DrainedBlock;
    forall y, b ensures Returns(ConsumerStep(s, Empty(x)).claims, y, b) <==> Returns(s.claims, y, b) {}
  }

  lemma PreserveClearEntry(s: State, x: nat)
    requires Inv(s) && ConsumerEnabled(s, ClearEntry(x))
    ensures Inv(ConsumerStep(s, ClearEntry(x)))
  {
    hide IndexInv, ProducerInv, HomesInv, ClaimInv, PoolInv;
    var s' := ConsumerStep(s, ClearEntry(x));
    ClearIndex(s, x);
    SameProducer(s, s');
    assert s.headers != [] by { ClearIndex(s, x); }
    LowFirst(s);
    ClearHomes(s, x);
    ClearPool(s, x);
  }

  /** Nobody else is on the way to a block that is being freed. */
  lemma FreedAlone(s: State, x: nat, y: nat)
    requires HomesInv(s) && ClaimInv(s) && x in s.claims && s.claims[x].Freeing? && y in s.claims && y != x
    requires !s.claims[y].Returning?
    ensures y / 32 != x / 32
  {
    assert DrainedBlock(s.done, x / 32);
  }

  lemma ClearIndex(s: State, x: nat)
    requires IndexInv(s) && ProducerInv(s) && HomesInv(s) && ClaimInv(s) && ConsumerEnabled(s, ClearEntry(x))
    ensures IndexInv(ConsumerStep(s, ClearEntry(x)))
  {
    var s' := ConsumerStep(s, ClearEntry(x));
    var n := x / 32;
    ClaimedInUse(s, x);
    assert Entitled(s.claims[x], x, s.v.nums, s.homes);
    forall y | y in s.claims && y != x && !s.claims[y].Returning? ensures y / 32 in s'.homes {
      ClaimedInUse(s, y);
      FreedAlone(s, x, y);
    }
    hide HomesInv, ClaimInv;
    ClearReaders(s, x);
    ClearValueIndex(s, s.claims[x].e, n);
  }

  lemma ClearReaders(s: State, x: nat)
    requires IndexInv(s) && ConsumerEnabled(s, ClearEntry(x))
    requires forall y :: y in s.claims && y != x && !s.claims[y].Returning? ==> y / 32 in s.homes - {x / 32}
    ensures var s' := ConsumerStep(s, ClearEntry(x));
      ReadersOk(Readers(s'.claims), s'.headers, s'.v, s'.homes) && AllEntitled(s'.claims, s'.v.nums, s'.homes)
  {
    hide IndexBut, ReaderOk;
    var s' := ConsumerStep(s, ClearEntry(x));
    ReaderSet(s.claims, x, s'.claims[x]);
    assert Readers(s'.claims) == Readers(s.claims);
    forall y {:trigger Entitled(s'.claims[y], y, s.v.nums, s'.homes)} | y in s'.claims
      ensures Entitled(s'.claims[y], y, s.v.nums, s'.homes)
    {
      if y != x { assert Entitled(s.claims[y], y, s.v.nums, s.homes); }
    }
  }

  /** Clearing the entry of a block below the operation under way takes the block out of the index, also in the middle
      of the producer's steps. */
  lemma ClearValueIndex(s: State, e: nat, n: nat)
    requires IndexInv(s) && ProducerInv(s) && n < s.first && e < |s.entries| && e < |s.v.nums| && s.v.nums[e] == Some(n)
    ensures IndexBut(WithValue(s, e, None), Seen(s), s.v, s.homes - {n}, Skip(s.producer))
  {
    hide ReaderOk, Entitled;
    ValueStored(s.entries, Seen(s), s.v, s.homes, s.homes - {n}, Skip(s.producer), e, n);
  }

  lemma ClearHomes(s: State, x: nat)
    requires HomesInv(s) && ClaimInv(s) && s.first <= Low(s) && ConsumerEnabled(s, ClearEntry(x))
    ensures HomesInv(ConsumerStep(s, ClearEntry(x))) && ClaimInv(ConsumerStep(s, ClearEntry(x)))
  {
    hide DrainedBlock;
    ClearClaims(s, x);
    ClearUse(s, x);
  }

  lemma ClearClaims(s: State, x: nat)
    requires ClaimInv(s) && ConsumerEnabled(s, ClearEntry(x))
    ensures ClaimInv(ConsumerStep(s, ClearEntry(x))) && x < 32 * s.first
  {}

  lemma ClearUse(s: State, x: nat)
    requires HomesInv(s) && x < 32 * s.first <= 32 * Low(s) && ConsumerEnabled(s, ClearEntry(x))
    ensures HomesInv(ConsumerStep(s, ClearEntry(x)))
  {
    hide DrainedBlock;
    var s' := ConsumerStep(s, ClearEntry(x));
    assert x / 32 in s.freeing;
    forall n: nat ensures n in s'.homes <==>
      (n < s'.first && (!DrainedBlock(s'.done, n) || n in s'.freeing)) || Low(s') <= n < High(s')
    {
      assert n in s.homes <==> (n < s.first && (!DrainedBlock(s.done, n) || n in s.freeing)) || Low(s) <= n < High(s);
    }
  }

  lemma LowFirst(s: State)
    requires s.headers != [] && ProducerInv(s)
    ensures s.first <= Low(s)
  {}

  lemma ClearPool(s: State, x: nat)
    requires PoolInv(s) && HomesInv(s) && IndexInv(s) && ConsumerEnabled(s, ClearEntry(x))
    ensures PoolInv(ConsumerStep(s, ClearEntry(x)))
  {
    hide IndexBut, ReaderOk, DrainedBlock;
    var s' := ConsumerStep(s, ClearEntry(x));
    var b := s.claims[x].b;
    assert Entitled(s.claims[x], x, s.v.nums, s.homes);
    forall y, c ensures Returns(s'.claims, y, c) <==> Returns(s.claims, y, c) || (y == x && c == b) {}
  }

  lemma PreserveReturn(s: State, x: nat)
    requires Inv(s) && ConsumerEnabled(s, Return(x))
    ensures Inv(ConsumerStep(s, Return(x)))
  {
    hide IndexInv, ProducerInv, HomesInv, ClaimInv, PoolInv;
    var s' := ConsumerStep(s, Return(x));
    ReturnIndex(s, x);
    SameProducer(s, s');
    ReturnHomes(s, x);
    ReturnPool(s, x);
  }

  lemma ReturnIndex(s: State, x: nat)
    requires IndexInv(s) && ConsumerEnabled(s, Return(x))
    ensures IndexInv(ConsumerStep(s, Return(x)))
  {
    hide IndexBut, ReaderOk;
    var s' := ConsumerStep(s, Return(x));
    ReaderSet(s.claims, x, Claimed);
    forall y {:trigger Entitled(s'.claims[y], y, s.v.nums, s.homes)} | y in s'.claims
      ensures Entitled(s'.claims[y], y, s.v.nums, s.homes)
    {
      assert Entitled(s.claims[y], y, s.v.nums, s.homes);
    }
  }

  lemma ReturnHomes(s: State, x: nat)
    requires HomesInv(s) && ClaimInv(s) && ConsumerEnabled(s, Return(x))
    ensures HomesInv(ConsumerStep(s, Return(x))) && ClaimInv(ConsumerStep(s, Return(x)))
  {
    hide DrainedBlock;
  }

  lemma ReturnPool(s: State, x: nat)
    requires PoolInv(s) && ConsumerEnabled(s, Return(x))
    ensures PoolInv(ConsumerStep(s, Return(x)))
  {
    var s' := ConsumerStep(s, Return(x));
    assert Returns(s.claims, x, s.claims[x].b);
    forall y, c ensures Returns(s'.claims, y, c) <==> Returns(s.claims, y, c) && y != x {}
  }

  // ----- The producer starts a block -----

  /** The consumers' side of the invariant does not depend on what the producer keeps to itself. */
  lemma SameClaims(s: State, s': State)
    requires HomesInv(s) && ClaimInv(s) && s'.claims == s.claims && s'.done == s.done && s'.freeing == s.freeing
    requires s'.homes == s.homes && s'.first == s.first && s'.head == s.head && s'.tail == s.tail
    requires (Low(s') == Low(s) && High(s') == High(s)) || (Low(s') >= High(s') && Low(s) >= High(s))
    ensures HomesInv(s') && ClaimInv(s')
  {
    hide DrainedBlock;
  }

  lemma SamePool(s: State, s': State)
    requires PoolInv(s) && s'.claims == s.claims && s'.homes == s.homes && s'.pool == s.pool && s'.limbo == s.limbo
    requires s'.dropped == s.dropped && !s'.producer.HasBlock?
    ensures PoolInv(s')
  {}

  lemma PreserveTest(s: State)
    requires Inv(s) && ProducerEnabled(s, Test)
    ensures Inv(ProducerStep(s, Test))
  {
    hide HomesInv, ClaimInv, PoolInv, ReaderOk, Entitled;
    var s' := ProducerStep(s, Test);
    NextUnused(s);
    TestFinds(s);
    hide IndexBut;
    SameClaims(s, s');
    SamePool(s, s');
  }

  /** The test says whether the entry behind the tail is free, and it is not free only if the index is full. */
  lemma TestFinds(s: State)
    requires IndexInv(s) && s.producer.Quiet? && Behind(s).Some? && s.v.next !in s.homes
    ensures Behind(s).value < |s.v.nums|
    ensures var e := s.entries[Behind(s).value];
      if e.key == INVALID_BLOCK_BASE || e.value == None then FreeEntry(s.v, s.homes, Behind(s).value)
      else s.v.next == s.v.top && FullRing(Last(s), s.v.marks[|s.headers| - 1], s.v.nums, s.v.next)
  {
    var e := EntryTest(s.entries, s.headers, s.v, s.homes);
    if InUse(s.v, s.homes, e) { FullWhenInUse(s.headers, s.v, s.homes, e); }
  }

  lemma PreserveStoreKey(s: State)
    requires Inv(s) && ProducerEnabled(s, StoreKey)
    ensures Inv(ProducerStep(s, StoreKey))
  {
    hide HomesInv, ClaimInv, PoolInv, IndexInv;
    var s' := ProducerStep(s, StoreKey);
    NextUnused(s);
    KeyIndex(s);
    KeyProducer(s);
    hide ProducerInv;
    SameClaims(s, s');
    SamePool(s, s');
  }

  lemma NextUnused(s: State)
    requires HomesInv(s) && (s.producer.Quiet? || s.producer.Tested? || s.producer.GaveUp?) && s.first <= s.v.next
    ensures s.v.next !in s.homes
  {
    hide DrainedBlock;
  }

  lemma KeyIndex(s: State)
    requires IndexInv(s) && ProducerInv(s) && ProducerEnabled(s, StoreKey) && s.v.next !in s.homes
    ensures IndexInv(ProducerStep(s, StoreKey))
    ensures NumberAt(Seen(ProducerStep(s, StoreKey))[|s.headers| - 1], s.v.marks[|s.headers| - 1],
                     Used(s.v, Behind(s).value).nums, s.v.next, Some(s.v.next))
  {
    hide ReaderOk;
    var s', e := ProducerStep(s, StoreKey), Behind(s).value;
    UseIndex(s.entries, s.headers, s.v, s.homes, e);
    UseReaders(Readers(s.claims), s.headers, s.v, s.homes, e, Last(s).tail);
    assert TailMoved(s.headers, Last(s).tail) == s.headers;
    hide IndexBut;
    forall y {:trigger Entitled(s'.claims[y], y, s'.v.nums, s.homes)} | y in s'.claims
      ensures Entitled(s'.claims[y], y, s'.v.nums, s.homes)
    {
      assert Entitled(s.claims[y], y, s.v.nums, s.homes);
    }
  }

  lemma KeyProducer(s: State)
    requires IndexInv(s) && ProducerInv(s) && ProducerEnabled(s, StoreKey)
    requires NumberAt(Seen(ProducerStep(s, StoreKey))[|s.headers| - 1], s.v.marks[|s.headers| - 1],
                      Used(s.v, Behind(s).value).nums, s.v.next, Some(s.v.next))
    ensures ProducerInv(ProducerStep(s, StoreKey))
  {
    hide ReaderOk, Entitled, NumberAt, EntriesBut, HomesOk;
    if s.v.marks[|s.headers| - 1].origin < s.v.next { TailUsed(s.headers, s.v); }
  }

  lemma PreserveStoreTail(s: State)
    requires Inv(s) && ProducerEnabled(s, StoreTail)
    ensures Inv(ProducerStep(s, StoreTail))
  {
    hide HomesInv, ClaimInv, PoolInv, ReaderOk;
    var s' := ProducerStep(s, StoreTail);
    MovedReaders(Readers(s.claims), s.headers, s.v, s.v, s.homes, NewTail(s.headers));
    hide IndexBut, Entitled;
    SameClaims(s, s');
    SamePool(s, s');
  }

  lemma PreserveGetBlock(s: State, b: nat)
    requires Inv(s) && ProducerEnabled(s, GetBlock(b))
    ensures Inv(ProducerStep(s, GetBlock(b)))
  {
    hide HomesInv, ClaimInv, PoolInv, IndexBut, ReaderOk, Entitled;
    var s' := ProducerStep(s, GetBlock(b));
    SameClaims(s, s');
    GetPool(s, b);
  }

  lemma GetPool(s: State, b: nat)
    requires PoolInv(s) && ProducerEnabled(s, GetBlock(b))
    ensures PoolInv(ProducerStep(s, GetBlock(b)))
  {}

  lemma PreserveStoreValue(s: State)
    requires Inv(s) && ProducerEnabled(s, StoreValue)
    ensures Inv(ProducerStep(s, StoreValue))
  {
    hide HomesInv, ClaimInv, PoolInv, IndexInv;
    NotYet(s);
    StartedIndex(s);
    hide ProducerInv;
    StartedHomes(s);
    StartedPool(s);
  }

  lemma NotYet(s: State)
    requires HomesInv(s) && (s.producer.KeyStored? || s.producer.TailStored? || s.producer.HasBlock?)
    requires s.first < s.v.next
    ensures s.v.next - 1 !in s.homes
  {
    hide DrainedBlock;
  }

  lemma StartedIndex(s: State)
    requires IndexInv(s) && ProducerInv(s) && ProducerEnabled(s, StoreValue) && s.v.next - 1 !in s.homes
    ensures IndexInv(ProducerStep(s, StoreValue)) && ProducerInv(ProducerStep(s, StoreValue))
  {
    hide ReaderOk;
    var s' := ProducerStep(s, StoreValue);
    hide AllEntitled;
    ValueStored(s.entries, s.headers, s.v, s.homes, s'.homes, Some(s.producer.e), s.producer.e, s.v.next - 1);
    hide IndexBut;
    EntitledStill(s.claims, s.v.nums, s.homes, s'.homes);
  }

  lemma EntitledStill(claims: map<nat, Consumer>, nums: seq<Option<nat>>, homes: map<nat, nat>, homes': map<nat, nat>)
    requires AllEntitled(claims, nums, homes)
    requires forall x :: x in claims && !claims[x].Returning? && x / 32 in homes ==>
        HomeOf(homes', x / 32) == HomeOf(homes, x / 32)
    ensures AllEntitled(claims, nums, homes')
  {
    forall x {:trigger Entitled(claims[x], x, nums, homes')} | x in claims
      ensures Entitled(claims[x], x, nums, homes')
    {
      assert Entitled(claims[x], x, nums, homes);
    }
  }

  lemma StartedHomes(s: State)
    requires HomesInv(s) && ClaimInv(s) && ProducerEnabled(s, StoreValue) && s.first < s.v.next
    ensures HomesInv(ProducerStep(s, StoreValue)) && ClaimInv(ProducerStep(s, StoreValue))
  {
    hide DrainedBlock;
    var s' := ProducerStep(s, StoreValue);
    forall n: nat ensures n in s'.homes <==>
      (n < s'.first && (!DrainedBlock(s'.done, n) || n in s'.freeing)) || Low(s') <= n < High(s')
    {
      assert n in s.homes <==> (n < s.first && (!DrainedBlock(s.done, n) || n in s.freeing)) || Low(s) <= n < High(s);
    }
  }

  lemma StartedPool(s: State)
    requires PoolInv(s) && ProducerEnabled(s, StoreValue) && s.v.next - 1 !in s.homes
    ensures PoolInv(ProducerStep(s, StoreValue))
  {}

  // ----- The index grows -----

  lemma PreserveGrow(s: State, junk: Option<nat>)
    requires Inv(s) && ProducerEnabled(s, Grow(junk))
    ensures Inv(ProducerStep(s, Grow(junk)))
  {
    hide HomesInv, ClaimInv, PoolInv, IndexInv;
    var s' := ProducerStep(s, Grow(junk));
    GrowthIndex(s, junk);
    hide ProducerInv;
    SameClaims(s, s');
    SamePool(s, s');
  }

  lemma GrownRotated(h: Header, k: Mark, next: nat, entries: nat)
    requires 0 < h.capacity == |h.index| && k.origin <= next && h.tail < h.capacity
    requires NextSlot(h.tail, h.capacity) == Slot(next - k.origin, h.capacity)
    ensures Rotated(h, k, GrownHeader(h, entries), next, entries)
  {
    var h' := GrownHeader(h, entries);
    forall i | 0 <= i < h.capacity ensures h'.index[i] == h.index[Slot(next - k.origin + i, h.capacity)] {
      SlotAhead(next - k.origin, i, h.capacity);
    }
  }

  lemma GrowthIndex(s: State, junk: Option<nat>)
    requires IndexInv(s) && ProducerInv(s) && ProducerEnabled(s, Grow(junk))
    ensures IndexInv(ProducerStep(s, Grow(junk))) && ProducerInv(ProducerStep(s, Grow(junk)))
  {
    hide ReaderOk, Entitled;
    var s' := ProducerStep(s, Grow(junk));
    GrowthIsGrowIndex(s, junk);
    GrowthUnused(s', junk);
    var h := GrownHeader(Last(s), |s.entries|);
    GrowReaders(Readers(s.claims), s.headers, s.v, s'.v, s.homes, h, s'.v.marks[|s.headers|]);
    GrowthEntitled(s, s');
    hide IndexBut;
  }

  lemma GrowthEntitled(s: State, s': State)
    requires AllEntitled(s.claims, s.v.nums, s.homes) && s'.claims == s.claims && s'.homes == s.homes
    requires s.v.nums <= s'.v.nums
    ensures AllEntitled(s'.claims, s'.v.nums, s'.homes)
  {
    forall y {:trigger Entitled(s'.claims[y], y, s'.v.nums, s'.homes)} | y in s'.claims
      ensures Entitled(s'.claims[y], y, s'.v.nums, s'.homes)
    {
      assert Entitled(s.claims[y], y, s.v.nums, s.homes);
    }
  }

  lemma GrowthIsGrowIndex(s: State, junk: Option<nat>)
    requires IndexInv(s) && ProducerInv(s) && ProducerEnabled(s, Grow(junk))
    ensures var s' := Growth(s, junk);
      && IndexOk(s'.entries, s'.headers, s'.v, s'.homes) && s'.v.next == s'.v.top && |s'.v.marks| == |s'.headers|
      && s'.v.next < s'.v.marks[|s.headers|].origin + Last(s').capacity
  {
    hide ReaderOk, Entitled;
    var c := |s.headers| - 1;
    var h, k, s' := Last(s), s.v.marks[|s.headers| - 1], Growth(s, junk);
    assert HeaderOk(s.headers[c], s.v.marks[c], s.v.nums);
    OrderBelow(k.order);
    GrownRotated(h, k, s.v.next, |s.entries|);
    var added := seq(h.capacity, _ => Entry(INVALID_BLOCK_BASE, junk));
    GrowIndex(s.entries, s.headers, s.v, s.homes, GrownHeader(h, |s.entries|), s'.v.marks[|s.headers|], added, s'.v);
  }

  lemma GrowthUnused(s: State, junk: Option<nat>)
    requires s.headers != [] && IndexOk(s.entries, s.headers, s.v, s.homes) && s.v.next == s.v.top
    requires |s.v.marks| == |s.headers| && s.v.next < s.v.marks[|s.headers| - 1].origin + Last(s).capacity
    ensures Behind(s).Some? && FreeEntry(s.v, s.homes, Behind(s).value)
  {
    var c := |s.headers| - 1;
    assert HeaderOk(s.headers[c], s.v.marks[c], s.v.nums);
    assert SlotOk(s.headers[c], s.v.marks[c], s.v.nums, NewTail(s.headers));
    UnusedEntry(s.entries, s.headers, s.v, s.homes, Last(s).index[NewTail(s.headers)]);
  }

  // ----- The producer takes blocks back -----

  /** The tail is moved back by one. */
  function Rewound(s: State, p: Producer): State
    requires s.headers != [] && Last(s).capacity > 0 && s.v.next > 0
  {
    s.(headers := TailMoved(s.headers, PrevSlot(Last(s).tail, Last(s).capacity)), v := s.v.(next := s.v.next - 1),
       producer := p)
  }

  lemma RewoundIndex(s: State, p: Producer)
    requires IndexInv(s) && Last(s).capacity > 0 && s.v.next > 0
    requires Skip(p) == Skip(s.producer) && !p.KeyStored? && !s.producer.KeyStored?
    requires s.v.marks[|s.headers| - 1].origin < s.v.next && s.v.top < s.v.next + Last(s).capacity
    ensures IndexInv(Rewound(s, p))
  {
    hide ReaderOk, Entitled;
    var s' := Rewound(s, p);
    RewindIndex(s.entries, s.headers, s.v, s.homes, Skip(s.producer));
    MovedReaders(Readers(s.claims), s.headers, s.v, s'.v, s.homes, PrevSlot(Last(s).tail, Last(s).capacity));
    hide IndexBut;
  }

  lemma PreserveNoBlock(s: State)
    requires Inv(s) && ProducerEnabled(s, NoBlock)
    ensures Inv(ProducerStep(s, NoBlock))
  {
    hide HomesInv, ClaimInv, PoolInv, IndexInv, Slot, PrevSlot;
    var s' := ProducerStep(s, NoBlock);
    RewoundIndex(s, s'.producer);
    SameClaims(s, s');
    SamePool(s, s');
  }

  /** Giving up: if the operation has started blocks, they are taken back, for which there is room in the index. */
  lemma FailureRoom(s: State)
    requires IndexInv(s) && HomesInv(s) && (s.producer.Quiet? || s.producer.Tested? || s.producer.GaveUp?)
    requires s.first < s.v.next
    ensures |s.v.marks| == |s.headers| && RewindOk(Last(s), s.v.marks[|s.headers| - 1], s.v, s.first)
  {
    hide ReaderOk, Entitled, DrainedBlock;
    assert s.first in s.homes;
    RewindRoom(s.headers, s.v, s.homes, s.first);
  }

  lemma PreserveClearOwn(s: State)
    requires Inv(s) && ProducerEnabled(s, ClearOwn)
    ensures Inv(ProducerStep(s, ClearOwn))
  {
    hide HomesInv, ClaimInv, PoolInv, ReaderOk, Entitled;
    var s' := ProducerStep(s, ClearOwn);
    NextUnused(s);
    hide IndexInv;
    if s.first < s.v.next { FailureRoom(s); }
    ClearOwnIndex(s);
    SameClaims(s, s');
    SamePool(s, s');
  }

  lemma ClearOwnIndex(s: State)
    requires IndexInv(s) && ProducerInv(s) && ProducerEnabled(s, ClearOwn) && s.v.next !in s.homes
    ensures IndexInv(ProducerStep(s, ClearOwn))
  {
    hide ReaderOk, Entitled;
    ValueStored(s.entries, s.headers, s.v, s.homes, s.homes, Skip(s.producer), s.producer.e, s.v.next);
    hide IndexBut;
  }

  lemma PreserveRefuse(s: State)
    requires Inv(s) && ProducerEnabled(s, Refuse)
    ensures Inv(ProducerStep(s, Refuse))
  {
    hide HomesInv, ClaimInv, PoolInv, ReaderOk, Entitled, IndexBut;
    if s.first < s.v.next { FailureRoom(s); }
    SameClaims(s, ProducerStep(s, Refuse));
    SamePool(s, ProducerStep(s, Refuse));
  }

  /** The producer finds the entries of its own blocks in the same way as the consumers. */
  lemma OwnEntryFound(s: State, i: nat)
    requires IndexInv(s) && Skip(s.producer) == None && !s.producer.KeyStored? && i in s.homes
    requires s.v.marks[|s.headers| - 1].origin < s.v.next
    ensures OwnEntry(s, i).Some? && OwnEntry(s, i).value < |s.entries| == |s.v.nums|
    ensures s.v.nums[OwnEntry(s, i).value] == Some(i)
  {
    var c := |s.headers| - 1;
    assert NumberAt(s.headers[c], s.v.marks[c], s.v.nums, i, Some(i));
    TailUsed(s.headers, s.v);
    assert 32 * i / 32 == i;
    var tail := Last(s).tail;
    assert ReaderOk(Tailed(c, tail), 32 * i, s.headers, s.v.marks, s.v.nums);
    KeySeen(s, 32 * i, c, tail);
    EntrySeen(s, 32 * i, Keyed(c, tail, KeyAt(s, c, tail).value, NumAt(s, c, tail)));
  }

  lemma PreserveClearValue(s: State)
    requires Inv(s) && ProducerEnabled(s, ClearValue)
    ensures Inv(ProducerStep(s, ClearValue))
  {
    hide HomesInv, ClaimInv, PoolInv, IndexInv;
    var s' := ProducerStep(s, ClearValue);
    DropIndex(s);
    assert ProducerInv(s');
    hide ProducerInv;
    DropHomes(s);
    DropPool(s);
  }

  lemma DropIndex(s: State)
    requires IndexInv(s) && ProducerInv(s) && HomesInv(s) && ClaimInv(s) && ProducerEnabled(s, ClearValue)
    ensures IndexInv(ProducerStep(s, ClearValue))
  {
    hide HomesInv, ClaimInv, IndexInv;
    forall y | y in s.claims && !s.claims[y].Returning?
      ensures y / 32 in s.homes && y / 32 < s.first
    {
      ClaimedInUse(s, y);
    }
    assert s.v.marks[|s.headers| - 1].origin < s.v.next by { DropRoom(s); }
    OwnEntryFound(s, s.producer.i);
    DropEntry(s);
  }

  lemma DropRoom(s: State)
    requires IndexInv(s) && ProducerInv(s) && s.producer.Clearing?
    ensures s.v.marks[|s.headers| - 1].origin < s.v.next
  {
    hide IndexBut, ReaderOk, Entitled;
  }

  lemma DropEntry(s: State)
    requires IndexInv(s) && ProducerInv(s) && ProducerEnabled(s, ClearValue)
    requires forall y :: y in s.claims && !s.claims[y].Returning? ==> y / 32 in s.homes && y / 32 < s.first
    requires OwnEntry(s, s.producer.i).value < |s.v.nums|
    requires s.v.nums[OwnEntry(s, s.producer.i).value] == Some(s.producer.i)
    ensures IndexInv(ProducerStep(s, ClearValue))
  {
    hide ReaderOk, AllEntitled, OwnEntry;
    var s', i := ProducerStep(s, ClearValue), s.producer.i;
    ValueStored(s.entries, s.headers, s.v, s.homes, s'.homes, None, OwnEntry(s, i).value, i);
    hide IndexBut;
    EntitledStill(s.claims, s.v.nums, s.homes, s'.homes);
  }

  lemma DropHomes(s: State)
    requires HomesInv(s) && ClaimInv(s) && ProducerEnabled(s, ClearValue) && s.first <= s.producer.i
    ensures HomesInv(ProducerStep(s, ClearValue)) && ClaimInv(ProducerStep(s, ClearValue))
  {
    hide DrainedBlock;
    var s' := ProducerStep(s, ClearValue);
    forall n: nat ensures n in s'.homes <==>
      (n < s'.first && (!DrainedBlock(s'.done, n) || n in s'.freeing)) || Low(s') <= n < High(s')
    {
      assert n in s.homes <==> (n < s.first && (!DrainedBlock(s.done, n) || n in s.freeing)) || Low(s) <= n < High(s);
    }
  }

  lemma DropPool(s: State)
    requires PoolInv(s) && ProducerEnabled(s, ClearValue)
    ensures PoolInv(ProducerStep(s, ClearValue))
  {}

  lemma PreserveStepBack(s: State)
    requires Inv(s) && ProducerEnabled(s, StepBack)
    ensures Inv(ProducerStep(s, StepBack))
  {
    hide HomesInv, ClaimInv, PoolInv, IndexInv, Slot, PrevSlot;
    var s' := ProducerStep(s, StepBack);
    RewoundIndex(s, s'.producer);
    SameClaims(s, s');
    SamePool(s, s');
  }

  lemma PreserveGiveBack(s: State, b: nat)
    requires Inv(s) && ProducerEnabled(s, GiveBack(b))
    ensures Inv(ProducerStep(s, GiveBack(b)))
  {
    hide HomesInv, ClaimInv, PoolInv, IndexBut, ReaderOk, Entitled;
    SameClaims(s, ProducerStep(s, GiveBack(b)));
    BackPool(s, b);
  }

  lemma BackPool(s: State, b: nat)
    requires PoolInv(s) && ProducerEnabled(s, GiveBack(b))
    ensures PoolInv(ProducerStep(s, GiveBack(b)))
  {}

  // ----- The elements are published -----

  lemma PreservePublish(s: State, t: nat)
    requires Inv(s) && ProducerEnabled(s, Publish(t))
    ensures Inv(ProducerStep(s, Publish(t)))
  {
    hide HomesInv, ClaimInv, PoolInv, IndexBut, ReaderOk, Entitled;
    PublishHomes(s, t);
    SamePool(s, ProducerStep(s, Publish(t)));
  }

  lemma PublishHomes(s: State, t: nat)
    requires HomesInv(s) && ClaimInv(s) && ProducerEnabled(s, Publish(t)) && s.first <= s.v.next
    ensures HomesInv(ProducerStep(s, Publish(t))) && ClaimInv(ProducerStep(s, Publish(t)))
  {
    var s' := ProducerStep(s, Publish(t));
    forall n: nat ensures n in s'.homes <==>
      (n < s'.first && (!DrainedBlock(s'.done, n) || n in s'.freeing)) || Low(s') <= n < High(s')
    {
      assert n in s.homes <==> (n < s.first && (!DrainedBlock(s.done, n) || n in s.freeing)) || Low(s) <= n < High(s);
      assert s.first <= n ==> 32 * n !in s.done;
    }
  }

  // ----- Runs -----

  lemma PreserveStep(p: State, a: Action, s: State)
    requires Inv(p) && Follows(p, a, s)
    ensures Inv(s)
  {
    hide Inv;
    if ProducerEnabled(p, a) && s == ProducerStep(p, a) { PreserveProducer(p, a); } else { PreserveConsumer(p, a); }
  }

  lemma PreserveProducer(s: State, a: Action)
    requires Inv(s) && ProducerEnabled(s, a)
    ensures Inv(ProducerStep(s, a))
  {
    hide Inv, ProducerStep;
    match a
    case Test => PreserveTest(s);
    case StoreKey => PreserveStoreKey(s);
    case Grow(junk) => PreserveGrow(s, junk);
    case StoreTail => PreserveStoreTail(s);
    case GetBlock(b) => PreserveGetBlock(s, b);
    case StoreValue => PreserveStoreValue(s);
    case NoBlock => PreserveNoBlock(s);
    case ClearOwn => PreserveClearOwn(s);
    case Refuse => PreserveRefuse(s);
    case ClearValue => PreserveClearValue(s);
    case StepBack => PreserveStepBack(s);
    case GiveBack(b) => PreserveGiveBack(s, b);
    case Publish(t) => PreservePublish(s, t);
    case _ =>
  }

  lemma PreserveConsumer(s: State, a: Action)
    requires Inv(s) && ConsumerEnabled(s, a)
    ensures Inv(ConsumerStep(s, a))
  {
    hide Inv;
    match a
    case Claim => PreserveClaim(s);
    case LoadIndex(x) => PreserveLoadIndex(s, x);
    case LoadTail(x) => PreserveLoadTail(s, x);
    case LoadKey(x) => PreserveLoadKey(s, x);
    case Locate(x) => PreserveLocate(s, x);
    case LoadValue(x) => PreserveLoadValue(s, x);
    case Empty(x) => PreserveEmpty(s, x);
    case ClearEntry(x) => PreserveClearEntry(s, x);
    case Return(x) => PreserveReturn(s, x);
    case _ =>
  }

  lemma InitInv(s: State, order: nat, junk: Option<nat>, pool: set<nat>)
    requires Init(s, order, junk, pool)
    ensures Inv(s)
  {
    FirstIndex(s.headers[0], order, s.entries, s.v);
  }

  lemma {:induction false} RunInv(run: Trace<Action>, s: State)
    requires Reaches(run, s)
    ensures Inv(s)
  {
    hide Inv, Follows;
    match run
    case Start =>
      var order: nat, junk: Option<nat>, pool: set<nat> :| Init(s, order, junk, pool);
      InitInv(s, order, junk, pool);
    case Then(before, a) =>
      var p :| Reaches(before, p) && Follows(p, a, s);
      RunInv(before, p);
      PreserveStep(p, a, s);
  }

  lemma ReachableInv(s: State)
    requires Reachable(s)
    ensures Inv(s)
  {
    hide Inv;
    var run :| Reaches(run, s);
    RunInv(run, s);
  }

  // ----- What holds in every run -----

  /** No consumer ever loads an invalid key, however the producer's steps fall between its own. */
  lemma KeyNeverInvalid(s: State, x: nat)
    requires Reachable(s) && x in s.claims && s.claims[x].Looking? && s.claims[x].r.Tailed?
    ensures KeyAt(s, s.claims[x].r.h, s.claims[x].r.slot).Some?
    ensures KeyAt(s, s.claims[x].r.h, s.claims[x].r.slot).value != INVALID_BLOCK_BASE
  {
    ReachableInv(s);
    assert Readers(s.claims)[x] == s.claims[x].r;
    KeySeen(s, x, s.claims[x].r.h, s.claims[x].r.slot);
  }

  /** The entry that a consumer looks up, through an index, a tail and a key that may all be out of date, has the key of
      the consumer's own block, and the block is there. */
  lemma LookupExact(s: State, x: nat)
    requires Reachable(s) && x in s.claims && s.claims[x].Looking? && s.claims[x].r.Keyed?
    ensures var r := s.claims[x].r; var e := Lookup(s, r.h, r.slot, r.key, x / 32);
      && e.Some? && e.value < |s.entries| && x / 32 in s.homes
      && s.entries[e.value] == Entry(Base(x / 32), Some(s.homes[x / 32]))
  {
    ReachableInv(s);
    ClaimedInUse(s, x);
    assert Readers(s.claims)[x] == s.claims[x].r;
    EntrySeen(s, x, s.claims[x].r);
  }

  /** A bulk dequeue looks up the entry of its first element only, and walks on from there through the index it has
      loaded: that leads to the entries of its other elements. */
  lemma BulkWalk(s: State, x: nat, y: nat)
    requires Reachable(s) && x in s.claims && y in s.claims && x <= y && s.claims[y] == s.claims[x]
    requires s.claims[x].Looking? && s.claims[x].r.Keyed?
    ensures var r := s.claims[x].r;
      && r.h < |s.headers| && 0 < s.headers[r.h].capacity && y / 32 in s.homes
      && var h := s.headers[r.h]; var i := Walk(LookupIn(h, r.slot, r.key, Base(x / 32)), y / 32 - x / 32, h.capacity);
        i < |h.index| && h.index[i] < |s.entries| && s.entries[h.index[i]] == Entry(Base(y / 32), Some(s.homes[y / 32]))
  {
    hide Walk, LookupIn, SourceSlot, Slot, Reachable, ReaderOk;
    LookupExact(s, y);
    OwnSlotKnown(s, x);
    OwnSlotKnown(s, y);
    var r := s.claims[x].r;
    WalkReaches(x / 32 - s.v.marks[r.h].origin, y / 32 - x / 32, s.headers[r.h].capacity);
  }

  lemma OwnSlotKnown(s: State, x: nat)
    requires Reachable(s) && x in s.claims && s.claims[x].Looking? && s.claims[x].r.Keyed?
    ensures var r := s.claims[x].r;
      && r.h < |s.headers| == |s.v.marks| && s.v.marks[r.h].origin <= x / 32 && 0 < s.headers[r.h].capacity
      && LookupIn(s.headers[r.h], r.slot, r.key, Base(x / 32))
           == Slot(x / 32 - s.v.marks[r.h].origin, s.headers[r.h].capacity)
  {
    hide ProducerInv, HomesInv, ClaimInv, PoolInv, ReaderOk, LookupIn, Slot;
    ReachableInv(s);
    assert Readers(s.claims)[x] == s.claims[x].r;
    OwnSlot(s, x, s.claims[x].r);
  }

  lemma OwnSlot(s: State, x: nat, r: Reader)
    requires IndexInv(s) && r.Keyed? && ReaderOk(r, x, s.headers, s.v.marks, s.v.nums)
    ensures r.h < |s.headers| == |s.v.marks| && s.v.marks[r.h].origin <= x / 32 && 0 < s.headers[r.h].capacity
    ensures LookupIn(s.headers[r.h], r.slot, r.key, Base(x / 32))
      == Slot(x / 32 - s.v.marks[r.h].origin, s.headers[r.h].capacity)
  {
    var hs := Seen(s);
    assert HeaderOk(hs[r.h], s.v.marks[r.h], s.v.nums);
    LookupReaches(hs[r.h], s.v.marks[r.h], x, r.slot, r.key, r.m);
  }

  /** The block that a consumer holds stays its element's block until the element has been taken: the entry still names
      it, no other block number has it, and it is not in the pool. */
  lemma HeldBlockStays(s: State, x: nat)
    requires Reachable(s) && x in s.claims && s.claims[x].Holding?
    ensures var e, b := s.claims[x].e, s.claims[x].b;
      && e < |s.entries| && s.entries[e] == Entry(Base(x / 32), Some(b)) && b !in s.pool
      && forall n :: n in s.homes && s.homes[n] == b ==> n == x / 32
  {
    ReachableInv(s);
    ClaimedInUse(s, x);
    assert Entitled(s.claims[x], x, s.v.nums, s.homes);
    ValueSeen(s, x / 32, s.claims[x].e);
  }

  /** An emptied block is freed by one consumer only, and once freed it is in no entry's number. */
  lemma FreedOnce(s: State, x: nat, y: nat)
    requires Reachable(s) && x in s.claims && s.claims[x].Freeing? && y in s.claims && y / 32 == x / 32 && y != x
    ensures s.claims[y].Returning?
  {
    ReachableInv(s);
    if !s.claims[y].Returning? { FreedAlone(s, x, y); }
  }

  /** After an operation that has failed and taken its blocks back, no block from `first` on is in use, and the next
      one to be started is the one that the operation began with. */
  lemma FailureUndone(s: State, s': State)
    requires Reachable(s) && ProducerEnabled(s, StepBack) && s' == ProducerStep(s, StepBack) && s'.producer.Quiet?
    ensures s'.v.next == s'.first == s.first && forall n :: n in s'.homes ==> n < s.first
  {
    ReachableInv(s);
    hide DrainedBlock, IndexInv, PoolInv;
    PreserveStepBack(s);
  }

  /** Every published element that has not been taken is in a block that an entry names. */
  lemma LiveElementsReachable(s: State, x: nat) returns (e: nat)
    requires Reachable(s) && x < s.tail && x !in s.done
    ensures x / 32 in s.homes && e < |s.entries| && s.entries[e] == Entry(Base(x / 32), Some(s.homes[x / 32]))
  {
    hide IndexInv, PoolInv;
    ReachableInv(s);
    assert !DrainedBlock(s.done, x / 32);
    e := HomeEntry(s, x / 32);
    ValueSeen(s, x / 32, e);
  }

  lemma HomeEntry(s: State, n: nat) returns (e: nat)
    requires IndexInv(s) && n in s.homes
    ensures e < |s.v.nums| && s.v.nums[e] == Some(n)
  {
    hide ReaderOk, Entitled, EntriesBut;
    var hs := Seen(s);
    var c := |hs| - 1;
    assert NumberAt(hs[c], s.v.marks[c], s.v.nums, n, Some(n));
    e := hs[c].index[Slot(n - s.v.marks[c].origin, hs[c].capacity)];
  }

  /** What a consumer does next. */
  function NextOf(c: Consumer, x: nat): Action {
    match c
    case Claimed => LoadIndex(x)
    case Looking(r) =>
      (match r case Indexed(_) => LoadTail(x) case Tailed(_, _) => LoadKey(x) case Keyed(_, _, _, _) => Locate(x))
    case Located(_) => LoadValue(x)
    case Holding(_, _) => Empty(x)
    case Freeing(_, _) => ClearEntry(x)
    case Returning(_) => Return(x)
  }

  /** A consumer that has claimed an element can always take its next step: no lookup fails and no entry is empty. */
  lemma NeverStuck(s: State, x: nat)
    requires Reachable(s) && x in s.claims
    ensures ConsumerEnabled(s, NextOf(s.claims[x], x))
  {
    ReachableInv(s);
    if s.claims[x].Looking? { NextLoad(s, x); } else if !s.claims[x].Returning? { NextValue(s, x); }
  }

  lemma NextLoad(s: State, x: nat)
    requires Inv(s) && x in s.claims && s.claims[x].Looking?
    ensures ConsumerEnabled(s, NextOf(s.claims[x], x))
  {
    hide HomesInv, PoolInv, ClaimInv, IndexBut;
    ClaimedInUse(s, x);
    var r := s.claims[x].r;
    assert Readers(s.claims)[x] == r;
    match r
    case Indexed(_) =>
    case Tailed(h, slot) => KeySeen(s, x, h, slot);
    case Keyed(_, _, _, _) => EntrySeen(s, x, r);
  }

  lemma NextValue(s: State, x: nat)
    requires Inv(s) && x in s.claims && !s.claims[x].Looking? && !s.claims[x].Returning?
    ensures ConsumerEnabled(s, NextOf(s.claims[x], x))
  {
    hide HomesInv, PoolInv, ClaimInv, IndexBut, ReadersOk;
    ClaimedInUse(s, x);
    var c := s.claims[x];
    assert Entitled(c, x, s.v.nums, s.homes);
    if !c.Claimed? { ValueSeen(s, x / 32, c.e); }
  }
}
