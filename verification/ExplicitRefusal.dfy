/** What a refused bulk enqueue of the explicit producer of concurrentqueue.h leaves behind. It puts
    pr_blockIndexSlotsUsed and pr_blockIndexFront back, but the blocks that it has linked into the ring stay there,
    and so does an index that it has installed. Exactly when it has linked in no block, and has not both taken a block
    from ahead and installed an index (or all blocks before had been emptied by then), every element can be found in all
    that follows. */
module ExplicitRefusal {
  import opened Prelude
  import opened CircularIndex
  import opened ExplicitIndex
  import opened ExplicitRace
  import D = DequeueCounters

  /** A consumer that looked element x up now, through the current index, would come to the entry of its block. */
  ghost predicate FoundNow(s: State, x: nat) {
    s.headers != [] &&
    var h := Last(s);
    && 0 < h.size && h.front < |h.entries| && x / 32 < |s.homes|
    && var i := SourceSlot(h.front, BlockStart(D.Wrap(x)), h.entries[h.front].base, h.size);
       i < |h.entries| && h.entries[i] == Entry(Base(x / 32), s.homes[x / 32])
  }

  /** Every element that has not been taken can be found. */
  ghost predicate Served(s: State) {
    forall x: nat {:trigger FoundNow(s, x)} :: x < s.tail && x !in s.done ==> FoundNow(s, x)
  }

  lemma ServedWhenInv(s: State, kept: nat)
    requires Inv(s, kept)
    ensures Served(s)
  {
    hide AllOnTrack, RingInv, SourceSlot;
    forall x: nat | x < s.tail && x !in s.done ensures FoundNow(s, x) {
      var n := x / 32;
      CurrentEntry(s, kept, n);
      var h, k := Last(s), s.marks[|s.headers| - 1];
      CurrentEntry(s, kept, k.last);
      Sizes(s, kept, |s.headers| - 1);
      SlotFound(h, k, s.homes, x, h.front, k.last);
    }
  }

  // ----- Runs -----

  lemma {:induction false} LeadsInv(p: State, kept: nat, run: Trace<Action>, s: State) returns (kept': nat)
    requires Inv(p, kept) && Counted(p, 0) && Leads(p, run, s)
    ensures Inv(s, kept')
    ensures Counted(s, 0)
  {
    hide Inv, Follows, Sound, Counted;
    match run
    case Start => kept' := kept;
    case Then(before, a) =>
      var q :| Leads(p, before, q) && Sound(q, a) && Follows(q, a, s);
      var earlier := LeadsInv(p, kept, before, q);
      kept' := PreserveStep(q, earlier, a, s);
  }

  /** One more step of the producer. */
  lemma Further(p: State, run: Trace<Action>, s: State, a: Action) returns (run': Trace<Action>)
    requires Leads(p, run, s) && ProducerEnabled(s, a) && !a.Refuse?
    ensures Leads(p, run', ProducerStep(s, a))
  {
    run' := Then(run, a);
    assert Sound(s, a) && Follows(s, a, ProducerStep(s, a));
  }

  // ----- The producer fills one block after the other -----

  /** Between two operations, with the tail at the end of its block. */
  ghost predicate Full(s: State) {
    && s.producer.Quiet? && s.exposed == |s.homes| && s.tail == 32 * |s.homes| && s.headers != []
    && |s.marks| == |s.headers|
  }

  lemma Fresh(t: seq<nat>) returns (b: nat)
    ensures b !in t
  {
    if t == [] {
      b := 0;
    } else {
      var m := Largest(t);
      b := m + 1;
    }
  }

  lemma {:induction false} Largest(t: seq<nat>) returns (m: nat)
    ensures forall i :: 0 <= i < |t| ==> t[i] <= m
  {
    if t == [] {
      m := 0;
    } else {
      m := Largest(t[..|t| - 1]);
      forall i | 0 <= i < |t| ensures t[i] <= (if t[|t| - 1] > m then t[|t| - 1] else m) {
        if i < |t| - 1 { assert t[i] == t[..|t| - 1][i]; }
      }
      if t[|t| - 1] > m { m := t[|t| - 1]; }
    }
  }

  /** The next block is taken, from ahead or from the pool. */
  lemma TakeBlock(p: State, run: Trace<Action>, s: State, kept: nat, extra: nat)
    returns (run': Trace<Action>, s': State)
    requires Leads(p, run, s) && Full(s) && Inv(s, kept) && Counted(s, extra)
    requires NextIsEmpty(s) || s.used < s.size
    ensures Leads(p, run', s') && s'.producer.Ready? && Counted(s', extra) && s'.added <= 1
    ensures s' == s.(used := s'.used, added := s'.added, low := s'.low, spares := s'.spares, producer := s'.producer)
    ensures |s.homes| < kept + s.size && (s.spares == [] && NextIsEmpty(s) ==> s.low < kept) ==> Inv(s', kept)
    ensures s.grown == false
  {
    hide IndexInv, AllOnTrack, RingInv, ClaimInv;
    assert s.added == 0 && !s.grown && Blocks(s.tail) == s.exposed by { QuietCounts(s, kept); }
    run' := Further(p, run, s, Check);
    var c := ProducerStep(s, Check);
    PreserveCheck(s, kept);
    assert Counted(c, extra);
    if NextIsEmpty(s) {
      run' := Further(p, run', c, TakeAhead);
      s' := ProducerStep(c, TakeAhead);
      assert Counted(s', extra);
      if |s.homes| < kept + s.size && (s.spares == [] ==> s.low < kept) { PreserveTakeAhead(c, kept); }
    } else {
      var b := Fresh(s.homes + s.spares);
      assert b !in s.homes[s.low..] && s.low <= |s.homes| by { QuietCounts(s, kept); }
      run' := Further(p, run', c, Insert(b));
      s' := ProducerStep(c, Insert(b));
      assert Counted(s', extra);
      if |s.homes| < kept + s.size { PreserveInsert(c, kept, b); }
    }
  }

  lemma QuietCounts(s: State, kept: nat)
    requires Full(s) && IndexInv(s, kept)
    ensures s.added == 0 && !s.grown && Blocks(s.tail) == s.exposed && s.low <= |s.homes| && 0 <= Reused(s)
  {
    hide CurrentOk, SizeOk;
  }

  /** The state after the producer has entered the block it has taken, and filled it. */
  function Entered(r: State): State
    requires r.producer.Ready? && r.headers != [] && |r.marks| == |r.headers| && r.front < |Last(r).entries|
  {
    var c, n, next := |r.headers| - 1, |r.homes|, NextSlot(r.front, r.size);
    var h := Last(r);
    var entries := h.entries[r.front := Entry(Base(n), r.producer.b)];
    r.(headers := r.headers[c := Header(h.size, Before(next, r.size), entries)],
       marks := r.marks[c := r.marks[c].(last := n)], homes := r.homes + [r.producer.b], front := next, undo := next,
       exposed := n + 1, tail := 32 * n + 32, added := 0, grown := false, producer := Quiet)
  }

  ghost predicate Ready(r: State) {
    && r.producer.Ready? && r.exposed == |r.homes| && r.tail == 32 * |r.homes| && r.headers != []
    && |r.marks| == |r.headers| && r.front < |Last(r).entries| && 0 <= Reused(r) && r.added <= 1
  }

  /** Its steps. */
  lemma EnterSteps(r: State)
    requires Ready(r)
    ensures ProducerEnabled(r, StoreBase) && ProducerEnabled(ProducerStep(r, StoreBase), StoreBlock)
    ensures var t := ProducerStep(ProducerStep(r, StoreBase), StoreBlock);
      && ProducerEnabled(t, StoreFront) && ProducerEnabled(ProducerStep(t, StoreFront), Publish(32 * |r.homes| + 32))
      && ProducerStep(ProducerStep(t, StoreFront), Publish(32 * |r.homes| + 32)) == Entered(r)
  {
    hide Base, BulkBase, NextSlot, Before;
    BulkBaseIs(r.tail, 0);
    assert Blocks(r.tail) == |r.homes| && Blocks(32 * |r.homes| + 32) == |r.homes| + 1;
    var based := ProducerStep(r, StoreBase);
    assert Last(based).entries[r.front] == Last(r).entries[r.front].(base := Base(|r.homes|));
    var stored := ProducerStep(based, StoreBlock);
    assert Last(stored).entries == Last(r).entries[r.front := Entry(Base(|r.homes|), r.producer.b)];
    assert Last(stored).size == Last(r).size;
    assert ProducerStep(ProducerStep(stored, StoreFront), Publish(32 * |r.homes| + 32)).headers == Entered(r).headers;
  }

  lemma EnterInv(r: State, kept: nat)
    requires Ready(r) && Inv(r, kept)
    ensures Inv(Entered(r), kept)
  {
    hide Inv, ProducerStep, ProducerEnabled, Entered;
    EnterSteps(r);
    PreserveStoreBase(r, kept);
    PreserveStoreBlock(ProducerStep(r, StoreBase), kept);
    var t := ProducerStep(ProducerStep(r, StoreBase), StoreBlock);
    PreserveStoreFront(t, kept);
    PreservePublish(ProducerStep(t, StoreFront), kept, 32 * |r.homes| + 32);
  }

  lemma EnterBlock(p: State, run: Trace<Action>, r: State, extra: nat) returns (run': Trace<Action>)
    requires Leads(p, run, r) && Counted(r, extra) && Ready(r)
    ensures Leads(p, run', Entered(r)) && Counted(Entered(r), extra)
  {
    EnterSteps(r);
    hide ProducerStep, ProducerEnabled;
    run' := Further(p, run, r, StoreBase);
    run' := Further(p, run', ProducerStep(r, StoreBase), StoreBlock);
    var t := ProducerStep(ProducerStep(r, StoreBase), StoreBlock);
    run' := Further(p, run', t, StoreFront);
    run' := Further(p, run', ProducerStep(t, StoreFront), Publish(32 * |r.homes| + 32));
  }

  // ----- Blocks that are not counted -----

  /** The producer can go on without a new index as long as it has not entered a block for which the one before it by
      the size of the index may still be read. x is the oldest element that has not been taken, or the next one. */
  lemma CanTake(s: State, o: nat, x: nat, extra: nat)
    requires Full(s) && Inv(s, o) && Counted(s, extra) && extra > 0 && |s.homes| <= o + s.size
    requires x / 32 == o && x !in s.done && x <= s.tail
    ensures NextIsEmpty(s) || s.used < s.size
    ensures s.spares == [] && NextIsEmpty(s) ==> s.low < o
  {
    hide AllOnTrack, RingInv, CurrentOk, SizeOk;
    if s.spares == [] && s.low < o {
      assert DrainedBlock(s.done, s.low);
    }
  }

  lemma {:induction false} Fill(p: State, run: Trace<Action>, s: State, o: nat, x: nat, extra: nat)
    returns (run': Trace<Action>, s': State)
    requires Leads(p, run, s) && Full(s) && Inv(s, o) && Counted(s, extra) && extra > 0 && |s.homes| <= o + s.size
    requires x / 32 == o && x !in s.done && x <= s.tail
    ensures Leads(p, run', s') && Full(s') && Inv(s', o) && Counted(s', extra) && |s'.homes| == o + s'.size
    ensures x !in s'.done && x <= s'.tail
    decreases o + s.size - |s.homes|
  {
    if |s.homes| == o + s.size {
      run', s' := run, s;
    } else {
      CanTake(s, o, x, extra);
      var r: State;
      run', r := TakeBlock(p, run, s, o, extra);
      ReadyCounts(r, o);
      run' := EnterBlock(p, run', r, extra);
      EnterInv(r, o);
      hide Inv;
      run', s' := Fill(p, run', Entered(r), o, x, extra);
    }
  }

  lemma ReadyCounts(r: State, kept: nat)
    requires IndexInv(r, kept) && r.producer.Ready?
    ensures r.headers != [] && |r.marks| == |r.headers| && r.front < |Last(r).entries| && 0 <= Reused(r)
  {}

  /** When one more block is entered its entry is written over the one that element x would be found through. */
  lemma Overwritten(r: State, x: nat, s: State)
    requires r.producer.Ready? && r.headers != [] && |r.marks| == |r.headers| && r.front < |Last(r).entries|
    requires s == Entered(r) && |r.homes| == x / 32 + r.size && SizeOk(Last(r), r.marks[|r.marks| - 1])
    requires Last(r).size == r.size && r.marks[|r.marks| - 1].origin <= x / 32
    requires r.front == Slot(|r.homes| - r.marks[|r.marks| - 1].origin, r.size)
    ensures !FoundNow(s, x)
  {
    hide SourceSlot, D.Wrap, Pow2;
    var n, k := |r.homes|, r.marks[|r.marks| - 1];
    SlotNext(n - k.origin, r.size);
    assert Last(s).front == r.front;
    WrapBlock(x);
    LookupSlot(x / 32 - k.origin, n - k.origin, k.origin, r.size, k.order);
    SlotAhead(x / 32 - k.origin, r.size, r.size);
    BasesDiffer(x / 32, n, k.order);
  }

  lemma BasesDiffer(a: nat, b: nat, order: nat)
    requires a < b <= a + Pow2(order) && order <= 58
    ensures Base(a) != Base(b)
  {
    SizeBound(order);
    BaseIsWrap(a);
    BaseIsWrap(b);
    WrapDiffers(32 * a, 32 * b);
  }

  /** The oldest element that has not been taken, or the next one to be enqueued. */
  lemma {:induction false} OldestLeft(done: set<nat>, x: nat, tail: nat) returns (y: nat)
    requires x <= tail && tail !in done && forall z: nat :: z < x ==> z in done
    ensures y <= tail && y !in done && forall z: nat :: z < y ==> z in done
    decreases tail - x
  {
    if x in done { y := OldestLeft(done, x + 1, tail); } else { y := x; }
  }

  /** Blocks without elements need no entries. */
  lemma RaiseKept(s: State, kept: nat, o: nat)
    requires Inv(s, kept) && kept <= o && forall x: nat :: x < 32 * o ==> x in s.done
    ensures Inv(s, o)
  {
    hide AllOnTrack, RingInv, EntryAt, SizeOk;
  }

  /** The block under way is filled up. */
  lemma FillTail(p: State, run: Trace<Action>, s: State) returns (run': Trace<Action>, s': State)
    requires Leads(p, run, s) && s.producer.Quiet? && s.exposed == |s.homes| && s.tail <= 32 * |s.homes|
    ensures Leads(p, run', s') && s' == s.(tail := 32 * |s.homes|)
    ensures s' == s || (ProducerEnabled(s, Publish(32 * |s.homes|)) && s' == ProducerStep(s, Publish(32 * |s.homes|)))
  {
    if s.tail < 32 * |s.homes| {
      assert Blocks(32 * |s.homes|) == |s.homes|;
      run' := Further(p, run, s, Publish(32 * |s.homes|));
      s' := ProducerStep(s, Publish(32 * |s.homes|));
    } else {
      run', s' := run, s;
    }
  }

  /** With a block in the ring that is not counted, some element can be made impossible to find: nobody takes
      anything, and the producer goes on until an entry that is still needed is overwritten. */
  lemma UncountedMisleads(p: State, s: State, kept: nat, run: Trace<Action>, extra: nat)
    returns (run': Trace<Action>, s': State)
    requires Leads(p, run, s) && Inv(s, kept) && Counted(s, extra) && extra > 0
    requires s.producer.Quiet? && s.exposed == |s.homes| && s.headers != []
    ensures Leads(p, run', s') && !Served(s')
  {
    var t: State;
    run', t := FillTail(p, run, s);
    if t != s { PreservePublish(s, kept, 32 * |s.homes|); }
    assert Full(t) && t.tail !in t.done by { hide IndexInv, AllOnTrack, RingInv; FullNow(s, kept); }
    var x := OldestLeft(t.done, 0, t.tail);
    var o := x / 32;
    KeptBelow(t, kept, x);
    RaiseKept(t, kept, o);
    RoomLeft(t, o);
    hide Inv;
    var u: State;
    run', u := Fill(p, run', t, o, x, extra);
    run', s' := OneTooMany(p, run', u, o, x, extra);
  }

  lemma OneTooMany(p: State, run: Trace<Action>, u: State, o: nat, x: nat, extra: nat)
    returns (run': Trace<Action>, s': State)
    requires Leads(p, run, u) && Full(u) && Inv(u, o) && Counted(u, extra) && extra > 0 && |u.homes| == o + u.size
    requires x / 32 == o && x !in u.done && x <= u.tail
    ensures Leads(p, run', s') && !Served(s')
  {
    hide Inv, FoundNow, Leads;
    CanTake(u, o, x, extra);
    LastOk(u, o);
    hide NextIsEmpty, SizeOk, Slot;
    var r: State;
    run', r := TakeBlock(p, run, u, o, extra);
    NowReady(u, r, extra);
    run' := EnterBlock(p, run', r, extra);
    s' := Entered(r);
    Overwritten(r, x, s');
    assert x < s'.tail && x !in s'.done;
  }

  lemma NowReady(u: State, r: State, extra: nat)
    requires Full(u) && u.front < |Last(u).entries| && r.producer.Ready? && r.added <= 1
    requires r == u.(used := r.used, added := r.added, low := r.low, spares := r.spares, producer := r.producer)
    ensures Ready(r)
  {}

  lemma RoomLeft(s: State, kept: nat)
    requires Inv(s, kept)
    ensures |s.homes| <= kept + s.size
  {
    hide AllOnTrack, RingInv, CurrentOk;
  }

  lemma FullNow(s: State, kept: nat)
    requires Inv(s, kept)
    ensures |s.marks| == |s.headers| && forall x :: x in s.done ==> x < s.tail
  {
    hide IndexInv, AllOnTrack, RingInv;
    assert |s.marks| == |s.headers| by { MarksThere(s, kept); }
  }

  lemma MarksThere(s: State, kept: nat)
    requires IndexInv(s, kept)
    ensures |s.marks| == |s.headers|
  {
    hide CurrentOk;
  }

  lemma KeptBelow(s: State, kept: nat, x: nat)
    requires Inv(s, kept) && x !in s.done
    ensures kept <= x / 32
  {
    hide IndexInv, AllOnTrack, RingInv;
  }

  lemma LastOk(s: State, o: nat)
    requires Inv(s, o) && Full(s) && |s.homes| == o + s.size
    ensures s.front < |Last(s).entries| && SizeOk(Last(s), s.marks[|s.marks| - 1]) && Last(s).size == s.size
    ensures s.marks[|s.marks| - 1].origin <= o && s.front == Slot(|s.homes| - s.marks[|s.marks| - 1].origin, s.size)
  {
    hide AllOnTrack, RingInv, ClaimInv;
    CurrentEntry(s, o, o);
    Sizes(s, o, |s.headers| - 1);
  }

  // ----- An index that is shifted -----

  /** In the index that was installed, the entries before the new front are those of the blocks that were taken from
      ahead, and only then those of the blocks before. */
  lemma ShiftedSlot(p: State, kept: nat, ring: seq<nat>, n: nat)
    requires IndexInv(p, kept) && Counted(p, 0) && ProducerEnabled(p, Refuse(ring)) && Shifted(p)
    requires p.low <= n < p.exposed && kept <= n
    ensures var h := Last(p);
      && p.exposed - n <= p.undo < p.size == |h.entries| == h.size && p.undo <= p.exposed
      && h.entries[p.undo - (p.exposed - n)].base != Base(n)
      && |p.marks| == |p.headers| && SizeOk(h, p.marks[|p.headers| - 1])
  {
    hide Pow2, Base;
    var e, moved := p.exposed, Reused(p);
    var k := p.marks[|p.marks| - 1];
    CurrentEntry(p, kept, n + moved);
    Sizes(p, kept, |p.headers| - 1);
    assert p.undo == e + moved - k.origin && e - n <= p.undo < p.size && p.undo <= e;
    SlotSmall(p.undo - (e - n), p.size);
    BasesDiffer(n, n + moved, k.order);
  }

  /** The entry that element x is looked up in is that of a block that was taken from ahead. */
  lemma ShiftedEntry(p: State, kept: nat, ring: seq<nat>, r: State, x: nat)
    requires Inv(p, kept) && Counted(p, 0) && ProducerEnabled(p, Refuse(ring)) && Shifted(p)
    requires p.low <= x / 32 < p.exposed && x !in p.done && Ready(r)
    requires r.headers == p.headers && r.marks == p.marks && r.homes == p.homes[..p.exposed] && r.front == p.undo
    requires r.size == p.size
    ensures !FoundNow(Entered(r), x)
  {
    hide SourceSlot, D.Wrap, Pow2, AllOnTrack, RingInv, CurrentOk, Base, Slot, ProducerEnabled;
    var n, e := x / 32, p.exposed;
    KeptBelow(p, kept, x);
    ShiftedSlot(p, kept, ring, n);
    hide IndexInv, ClaimInv;
    var h, j := Last(p), p.undo - (e - n);
    SlotSmall(j, p.size);
    SlotSmall(p.undo, p.size);
    var s := Entered(r);
    assert Last(s).front == p.undo && Last(s).entries[p.undo].base == Base(e) && Last(s).entries[j] == h.entries[j];
    WrapBlock(x);
    LookupSlot(j, p.undo, e - p.undo, p.size, p.marks[|p.headers| - 1].order);
  }

  lemma ShiftedMisleads(p: State, kept: nat, ring: seq<nat>) returns (run: Trace<Action>, s: State)
    requires Inv(p, kept) && Counted(p, 0) && ProducerEnabled(p, Refuse(ring)) && Shifted(p) && !Idle(p)
    ensures Leads(Refused(p, ring), run, s) && !Served(s)
  {
    var n :| p.low <= n < p.exposed && !DrainedBlock(p.done, n);
    var x :| 32 * n <= x < 32 * n + 32 && x !in p.done;
    var q := Refused(p, ring);
    ShiftedCounts(p, kept, ring);
    hide Inv, FoundNow, Leads;
    var t: State;
    run, t := FillTail(q, Start, q);
    assert Blocks(t.tail) == t.exposed;
    run := Further(q, run, t, Check);
    var c := ProducerStep(t, Check);
    run := Further(q, run, c, TakeAhead);
    var r := ProducerStep(c, TakeAhead);
    run := EnterBlock(q, run, r, p.added);
    ShiftedEntry(p, kept, ring, r, x);
    s := Entered(r);
    assert x < s.tail && x !in s.done;
  }

  lemma ShiftedCounts(p: State, kept: nat, ring: seq<nat>)
    requires Inv(p, kept) && Counted(p, 0) && ProducerEnabled(p, Refuse(ring)) && Shifted(p) && !Idle(p)
    ensures Counted(Refused(p, ring), p.added) && ring != [] && p.tail <= 32 * p.exposed && p.exposed <= |p.homes|
    ensures p.headers != [] && |p.marks| == |p.headers| && p.undo < |Last(p).entries| && p.low <= p.exposed
  {
    hide AllOnTrack, RingInv;
    RingLength(p, kept, ring);
    Sizes(p, kept, |p.headers| - 1);
  }

  // ----- Exactly when -----

  /** After a refused operation every element can be found in all that follows, as long as no other refused operation
      does harm, exactly if it has linked in no block from the pool and has not installed an index after it had taken
      a block from ahead, or that was when all blocks before had been emptied. */
  lemma RefusalHarmlessExactly(p: State, ring: seq<nat>)
    requires Reachable(p) && ProducerEnabled(p, Refuse(ring))
    ensures (forall run, s {:trigger Leads(Refused(p, ring), run, s)} :: Leads(Refused(p, ring), run, s) ==> Served(s))
      <==> p.added == 0 && (Shifted(p) ==> Idle(p))
  {
    hide Inv, Counted, Served, Refused, Shifted, Idle, KeptAfter, Leads;
    var kept := ReachableInv(p);
    if Shifted(p) && !Idle(p) {
      var run, s := ShiftedMisleads(p, kept, ring);
    } else {
      PreserveRefuse(p, kept, ring);
      RefusedQuiet(p, kept, ring);
      AfterRefusal(Refused(p, ring), KeptAfter(p, kept), p.added);
    }
  }

  lemma RefusedQuiet(p: State, kept: nat, ring: seq<nat>)
    requires Inv(p, kept) && ProducerEnabled(p, Refuse(ring))
    ensures var q := Refused(p, ring);
      q.producer.Quiet? && q.exposed == |q.homes| && q.headers == p.headers && (p.added > 0 ==> p.headers != [])
  {
    hide AllOnTrack, RingInv, ClaimInv, CurrentOk, SizeOk;
  }

  lemma AfterRefusal(q: State, kept: nat, extra: nat)
    requires Inv(q, kept) && Counted(q, extra)
    requires q.producer.Quiet? && q.exposed == |q.homes| && (extra > 0 ==> q.headers != [])
    ensures (forall run, s {:trigger Leads(q, run, s)} :: Leads(q, run, s) ==> Served(s)) <==> extra == 0
  {
    hide Inv, Counted, Served;
    if extra > 0 {
      var run, s := UncountedMisleads(q, q, kept, Start, extra);
    } else {
      forall run, s {:trigger Leads(q, run, s)} | Leads(q, run, s) ensures Served(s) {
        var kept' := LeadsInv(q, kept, run, s);
        ServedWhenInv(s, kept');
      }
    }
  }

  /** Every element can be found in every run in which refused operations do no harm. */
  lemma AlwaysServed(s: State)
    requires Reachable(s)
    ensures Served(s)
  {
    var kept := ReachableInv(s);
    ServedWhenInv(s, kept);
  }
}
