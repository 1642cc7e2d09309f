/** The block index of the explicit producer in concurrentqueue.h: a circular array of block bases and blocks that
    doubles when it is full. Here are its steps and the consumers' lookups, on values. homes[n] is the block that
    element numbers 32 n .. 32 n + 31 were put in. */
module ExplicitIndex {
  import opened Prelude
  import opened CircularIndex
  import D = DequeueCounters

  datatype Entry = Entry(base: nat, block: nat)

  /** An index as consumers see it; `front` is the last published slot. */
  datatype Header = Header(size: nat, front: nat, entries: seq<Entry>)

  /** What the proof knows of an index: the number of the block in slot 0, its size as a power of two, and the
      number of the block in the published slot. */
  datatype Mark = Mark(origin: nat, order: nat, last: nat)

  /** A consumer between its claim and its dequeue: it has loaded index h, and then that index's front. */
  datatype Reader = Loaded(h: nat) | Fronted(h: nat, slot: nat, last: nat)

  ghost predicate EntryAt(h: Header, k: Mark, homes: seq<nat>, n: nat) {
    && k.origin <= n < |homes| && 0 < h.size == |h.entries|
    && h.entries[Slot(n - k.origin, h.size)] == Entry(Base(n), homes[n])
  }

  ghost predicate HeaderOk(h: Header, k: Mark, homes: seq<nat>) {
    && k.order <= 58 && 0 < h.size == |h.entries| == Pow2(k.order)
    && (homes != [] ==> EntryAt(h, k, homes, k.last) && h.front == Slot(k.last - k.origin, h.size))
  }

  /** The current index holds the ring, oldest block first, right behind the next slot to write. */
  ghost predicate WindowOk(h: Header, k: Mark, homes: seq<nat>, used: nat, front: nat) {
    && used <= |homes| && k.origin <= |homes| - used && used <= h.size && 0 < h.size
    && front == Slot(|homes| - k.origin, h.size) && (homes != [] ==> k.last == |homes| - 1)
    && (forall n {:trigger EntryAt(h, k, homes, n)} :: |homes| - used <= n < |homes| ==> EntryAt(h, k, homes, n))
  }

  ghost predicate ReaderOk(r: Reader, x: nat, headers: seq<Header>, marks: seq<Mark>, homes: seq<nat>) {
    && r.h < |headers| == |marks| && EntryAt(headers[r.h], marks[r.h], homes, x / 32)
    && (r.Loaded? ==> x / 32 <= marks[r.h].last)
    && (r.Fronted? ==>
        && x / 32 <= r.last && EntryAt(headers[r.h], marks[r.h], homes, r.last)
        && r.slot == Slot(r.last - marks[r.h].origin, headers[r.h].size))
  }

  // ----- Index steps -----

  /** Writing the entry of block number |homes| into the next slot. */
  function Published(h: Header, slot: nat, homes: nat, b: nat): Header
    requires slot < |h.entries|
  {
    h.(entries := h.entries[slot := Entry(Base(homes), b)], front := slot)
  }

  lemma PublishKeeps(h: Header, k: Mark, homes: seq<nat>, b: nat, n: nat, end: nat)
    requires EntryAt(h, k, homes, n) && end < h.size && Slot(n - k.origin, h.size) != end
    ensures EntryAt(Published(h, end, |homes|, b), k.(last := |homes|), homes + [b], n)
  {}

  lemma SlotTaken(h: Header, k: Mark, homes: seq<nat>, n: nat)
    requires EntryAt(h, k, homes, n) && |homes| < n + h.size
    ensures Slot(n - k.origin, h.size) != Slot(|homes| - k.origin, h.size)
  {
    SlotDistinct(n - k.origin, |homes| - k.origin, h.size);
  }

  lemma EntryKept(h: Header, k: Mark, homes: seq<nat>, b: nat, n: nat, front: nat)
    requires EntryAt(h, k, homes, n) && |homes| < n + h.size && front == Slot(|homes| - k.origin, h.size)
    ensures EntryAt(Published(h, front, |homes|, b), k.(last := |homes|), homes + [b], n)
  {
    SlotTaken(h, k, homes, n);
    PublishKeeps(h, k, homes, b, n, front);
  }

  lemma PublishWindow(h: Header, k: Mark, homes: seq<nat>, b: nat, used: nat, used': nat, front: nat)
    requires HeaderOk(h, k, homes) && WindowOk(h, k, homes, used, front)
    requires 0 < used' <= h.size && used <= used' <= used + 1 && used' <= |homes| + 1
    ensures var h', k' := Published(h, front, |homes|, b), k.(last := |homes|);
      HeaderOk(h', k', homes + [b]) && WindowOk(h', k', homes + [b], used', NextSlot(front, h.size))
  {
    var h', k' := Published(h, front, |homes|, b), k.(last := |homes|);
    SlotNext(|homes| - k.origin, h.size);
    assert EntryAt(h', k', homes + [b], |homes|);
    forall n | |homes| + 1 - used' <= n < |homes| ensures EntryAt(h', k', homes + [b], n) {
      assert EntryAt(h, k, homes, n);
      EntryKept(h, k, homes, b, n, front);
    }
  }

  lemma PublishReader(r: Reader, x: nat, headers: seq<Header>, marks: seq<Mark>, homes: seq<nat>, b: nat, front: nat)
    requires headers != [] && |headers| == |marks| && ReaderOk(r, x, headers, marks, homes)
    requires 0 < |headers[|headers| - 1].entries| == headers[|headers| - 1].size
    requires marks[|marks| - 1].origin <= |homes| && (homes != [] ==> marks[|marks| - 1].last < |homes|)
    requires front == Slot(|homes| - marks[|marks| - 1].origin, headers[|headers| - 1].size)
    requires r.h == |headers| - 1 ==> |homes| < x / 32 + headers[r.h].size
    ensures ReaderOk(r, x,
      headers[|headers| - 1 := Published(headers[|headers| - 1], front, |homes|, b)],
      marks[|marks| - 1 := marks[|marks| - 1].(last := |homes|)], homes + [b])
  {
    hide Slot, Base;
    if r.h == |headers| - 1 {
      EntryKept(headers[r.h], marks[r.h], homes, b, x / 32, front);
      if r.Fronted? { EntryKept(headers[r.h], marks[r.h], homes, b, r.last, front); }
    }
  }

  lemma OldHeader(h: Header, k: Mark, homes: seq<nat>, b: nat)
    requires HeaderOk(h, k, homes) && homes != []
    ensures HeaderOk(h, k, homes + [b])
  {}

  // ----- Lookups -----

  /** The lookup of a consumer finds the block its element was put in. */
  lemma LookupFinds(x: nat, r: Reader, headers: seq<Header>, marks: seq<Mark>, homes: seq<nat>)
    requires r.Fronted? && ReaderOk(r, x, headers, marks, homes) && HeaderOk(headers[r.h], marks[r.h], homes)
    ensures r.slot < |headers[r.h].entries|
    ensures var h := headers[r.h];
      h.entries[SourceSlot(r.slot, D.Wrap(x) - x % 32, h.entries[r.slot].base, h.size)].block == homes[x / 32]
  {
    var h, k := headers[r.h], marks[r.h];
    WrapBlock(x);
    LookupSlot(x / 32 - k.origin, r.last - k.origin, k.origin, h.size, k.order);
  }

  // ----- All indexes, and all consumers reading them -----

  ghost predicate IndexesOk(
    headers: seq<Header>, marks: seq<Mark>, homes: seq<nat>, used: nat, size: nat, order: nat, front: nat)
  {
    && |headers| == |marks| && size == Pow2(order) && order <= 58
    && (homes == [] ==> |headers| <= 1) && (headers == [] ==> homes == [])
    && (forall h :: 0 <= h < |headers| ==> HeaderOk(headers[h], marks[h], homes))
    && (headers != [] ==>
        && headers[|headers| - 1].size == size && marks[|headers| - 1].order == order
        && WindowOk(headers[|headers| - 1], marks[|headers| - 1], homes, used, front))
  }

  ghost predicate ReadersOk(
    readers: map<nat, Reader>, headers: seq<Header>, marks: seq<Mark>, homes: seq<nat>, head: nat, done: set<nat>)
  {
    forall x :: x in readers ==> x < head && x !in done && ReaderOk(readers[x], x, headers, marks, homes)
  }

  lemma FrontOk(x: nat, headers: seq<Header>, marks: seq<Mark>, homes: seq<nat>, h: nat)
    requires ReaderOk(Loaded(h), x, headers, marks, homes) && HeaderOk(headers[h], marks[h], homes)
    ensures ReaderOk(Fronted(h, headers[h].front, marks[h].last), x, headers, marks, homes)
  {}

  lemma PublishIndexes(
    headers: seq<Header>, marks: seq<Mark>, homes: seq<nat>, used: nat, used': nat, size: nat, order: nat, front: nat,
    b: nat)
    requires IndexesOk(headers, marks, homes, used, size, order, front) && headers != []
    requires 0 < used' <= size && used <= used' <= used + 1 && used' <= |homes| + 1
    ensures var c := |headers| - 1;
      && front < |headers[c].entries|
      && IndexesOk(headers[c := Published(headers[c], front, |homes|, b)], marks[c := marks[c].(last := |homes|)],
                   homes + [b], used', size, order, NextSlot(front, size))
  {
    var c := |headers| - 1;
    PublishWindow(headers[c], marks[c], homes, b, used, used', front);
    forall h | 0 <= h < c ensures HeaderOk(headers[h], marks[h], homes + [b]) {
      OldHeader(headers[h], marks[h], homes, b);
    }
  }

  lemma PublishReaders(
    readers: map<nat, Reader>, headers: seq<Header>, marks: seq<Mark>, homes: seq<nat>, used: nat, used': nat,
    size: nat, order: nat, front: nat, b: nat, head: nat, done: set<nat>)
    requires IndexesOk(headers, marks, homes, used, size, order, front) && headers != []
    requires ReadersOk(readers, headers, marks, homes, head, done)
    requires 0 < used' <= size && used' <= |homes| + 1
    requires forall x :: 0 <= x < 32 * (|homes| + 1 - used') ==> x in done
    ensures var c := |headers| - 1;
      && front < |headers[c].entries|
      && ReadersOk(readers, headers[c := Published(headers[c], front, |homes|, b)],
                   marks[c := marks[c].(last := |homes|)], homes + [b], head, done)
  {
    hide ReaderOk, EntryAt;
    forall x | x in readers
      ensures ReaderOk(readers[x], x, headers[|headers| - 1 := Published(headers[|headers| - 1], front, |homes|, b)],
                       marks[|headers| - 1 := marks[|headers| - 1].(last := |homes|)], homes + [b])
    {
      PublishReader(readers[x], x, headers, marks, homes, b, front);
    }
  }

  /** A larger index that starts with the entries of the ring, oldest first, serves as well as the one before it. */
  lemma DoubledIndexes(
    headers: seq<Header>, marks: seq<Mark>, homes: seq<nat>, used: nat, size: nat, order: nat, front: nat, h: Header,
    k: Mark)
    requires IndexesOk(headers, marks, homes, used, size, order, front) && order + 1 <= 58
    requires (headers == [] || used == size) && used <= |homes|
    requires k == Mark(|homes| - used, order + 1, if homes == [] then 0 else |homes| - 1)
    requires used <= |homes| && h.size == 2 * size == |h.entries| && (used == 0 ==> homes == [])
    requires forall j :: 0 <= j < used ==> h.entries[j] == Entry(Base(|homes| - used + j), homes[|homes| - used + j])
    requires used > 0 ==> h.front == used - 1
    requires headers == [] ==> used == 0
    ensures IndexesOk(headers + [h], marks + [k], homes, used, h.size, k.order, used)
  {
    forall n | |homes| - used <= n < |homes| ensures EntryAt(h, k, homes, n) {
      SlotSmall(n - k.origin, h.size);
      assert h.entries[n - k.origin] == Entry(Base(|homes| - used + (n - k.origin)), homes[n]);
    }
    if homes != [] { SlotSmall(|homes| - 1 - k.origin, h.size); }
    SlotSmall(used, h.size);
    forall i | 0 <= i < |headers| + 1 ensures HeaderOk((headers + [h])[i], (marks + [k])[i], homes) {}
  }

  /** (front - used) & (size - 1) */
  lemma StartSlot(k: nat, used: nat, size: nat)
    requires 0 < used <= size
    ensures (Slot(k + used, size) + size - used) % size == Slot(k, size)
  {
    SlotAhead(k, used, size);
    if Slot(k, size) + used < size {
      ModPlus(Slot(k, size), 1, size);
    }
    ModUnique(Slot(k, size), 0, Slot(k, size), size);
  }

  lemma LongerHeaders(
    readers: map<nat, Reader>, headers: seq<Header>, marks: seq<Mark>, homes: seq<nat>, head: nat, done: set<nat>,
    h: Header, k: Mark)
    requires ReadersOk(readers, headers, marks, homes, head, done) && |headers| == |marks|
    ensures ReadersOk(readers, headers + [h], marks + [k], homes, head, done)
  {
    forall x | x in readers ensures ReaderOk(readers[x], x, headers + [h], marks + [k], homes) {
      assert ReaderOk(readers[x], x, headers, marks, homes);
    }
  }

  lemma FewerReaders(
    readers: map<nat, Reader>, headers: seq<Header>, marks: seq<Mark>, homes: seq<nat>, head: nat, done: set<nat>,
    x: nat)
    requires ReadersOk(readers, headers, marks, homes, head, done)
    ensures ReadersOk(readers - {x}, headers, marks, homes, head, done + {x})
  {}

  /** Copies the entries of the ring, oldest first. The loop stops when it is back at the next slot to write,
      which in a full index is where it starts. */
  method CopyRing(h: Header, ghost k: Mark, ghost homes: seq<nat>, used: nat, front: nat, memory: seq<Entry>)
    returns (entries: seq<Entry>)
    requires WindowOk(h, k, homes, used, front) && HeaderOk(h, k, homes) && used <= |memory|
    ensures |entries| == |memory|
    ensures forall j :: 0 <= j < used ==> entries[j] == Entry(Base(|homes| - used + j), homes[|homes| - used + j])
  {
    entries := memory;
    if used == 0 { return; }
    ghost var first := |homes| - used - k.origin;
    var j, i := 0, (front + h.size - used) % h.size;
    StartSlot(first, used, h.size);
    while j == 0 || i != front
      invariant 0 <= j <= used && |entries| == |memory| && i == Slot(first + j, h.size)
      invariant forall m :: 0 <= m < j ==> entries[m] == Entry(Base(|homes| - used + m), homes[|homes| - used + m])
      decreases used - j
    {
      assert EntryAt(h, k, homes, |homes| - used + j);
      SlotNext(first + j, h.size);
      entries := entries[j := h.entries[i]];
      j, i := j + 1, NextSlot(i, h.size);
    }
    if j < used { SlotDistinct(first + j, first + used, h.size); }
  }
}
