/** The growing lock-free hash from thread id to implicit producer (get_or_add_implicit_producer in
    concurrentqueue.h). Each load, compare-exchange, test-and-set and store of the source is one step of
    one of any number of threads; allocation succeeds. A thread's id is its position in `threads`. */
module ProducerHash {
  import opened Prelude

  type Producer = nat

  datatype Entry = Entry(key: Option<nat>, value: Option<Producer>)

  type Table = seq<Entry>

  /** Program points, with mainHash as a position in the chain of tables, newCount, and the probe offset. */
  datatype Pc =
    | Idle
    | Probe(main: nat, table: nat, d: nat)
    | Migrate(main: nat, d: nat, value: Producer)
    | MigrateCas(main: nat, d: nat, value: Producer)
    | MigrateStore(main: nat, d: nat, value: Producer)
    | DrawCount(main: nat)
    | TestResize(main: nat, count: nat)
    | Reload(main: nat, count: nat)
    | Grow(main: nat, count: nat)
    | Unlock(main: nat, count: nat)
    | Decide(main: nat, count: nat)
    | Insert(main: nat, count: nat, producer: Producer, d: nat)
    | InsertCas(main: nat, count: nat, producer: Producer, d: nat)
    | InsertStore(main: nat, producer: Producer, d: nat)

  /** tables[0] is the initial table and each later one has the one before it as `prev`; the last is the
      current implicitProducerHash. `given` logs the producer each thread's calls have returned. */
  datatype State = State(
    tables: seq<Table>, count: nat, resizing: bool, producers: nat,
    hash: seq<nat>, threads: seq<Pc>, given: seq<Option<Producer>>)

  datatype Action = Call(t: nat) | Run(t: nat)

  /** The slot at offset d of the linear probe for hash h. */
  function Pos(h: nat, d: nat, capacity: nat): (i: nat)
    requires capacity > 0
    ensures i < capacity
  {
    if d == 0 then h % capacity else NextSlot(Pos(h, d - 1, capacity), capacity)
  }

  function Half(capacity: nat): nat { capacity / 2 }

  /** (capacity >> 1) + (capacity >> 2) */
  function Limit(capacity: nat): nat { capacity / 2 + capacity / 4 }

  /** The capacity of the next table: doubled until it is less than half full with `count` threads. */
  function GrownCapacity(capacity: nat, count: nat): (c: nat)
    requires capacity > 0
    ensures c > capacity && count < Half(c)
  {
    Doubled(2 * capacity, count)
  }

  function Doubled(capacity: nat, count: nat): (c: nat)
    requires capacity > 0
    ensures c >= capacity && count < Half(c)
    decreases 2 * count + 2 - capacity
  {
    if count >= Half(capacity) then Doubled(2 * capacity, count) else capacity
  }

  predicate HasSlot(s: State, table: nat) {
    table < |s.tables| && |s.tables[table]| > 0
  }

  predicate Shaped(s: State) {
    s.tables != [] && |s.hash| == |s.threads| && |s.given| == |s.threads|
  }

  predicate Enabled(s: State, a: Action) {
    Shaped(s) &&
    match a
    case Call(t) => t < |s.threads| && s.threads[t].Idle?
    case Run(t) =>
      && t < |s.threads| && !s.threads[t].Idle? && HasSlot(s, s.threads[t].main) && HasSlot(s, |s.tables| - 1)
      && (s.threads[t].Probe? ==> HasSlot(s, s.threads[t].table) && (FoundAt(s, t) ==> SlotOf(s, t).value.Some?))
  }

  /** The slot thread t's probe looks at. */
  function SlotOf(s: State, t: nat): Entry
    requires Shaped(s) && t < |s.threads| && s.threads[t].Probe? && HasSlot(s, s.threads[t].table)
  {
    var table := s.tables[s.threads[t].table];
    table[Pos(s.hash[t], s.threads[t].d, |table|)]
  }

  predicate FoundAt(s: State, t: nat)
    requires Shaped(s) && t < |s.threads| && s.threads[t].Probe? && HasSlot(s, s.threads[t].table)
  {
    SlotOf(s, t).key == Some(t)
  }

  function Step(s: State, a: Action): State
    requires Enabled(s, a)
  {
    match a
    case Call(t) => Goto(s, t, Probe(|s.tables| - 1, |s.tables| - 1, 0))
    case Run(t) => Execute(s, t)
  }

  function Goto(s: State, t: nat, pc: Pc): State
    requires t < |s.threads|
  {
    s.(threads := s.threads[t := pc])
  }

  /** Leave the call with a producer. */
  function Return(s: State, t: nat, p: Producer): State
    requires t < |s.threads| == |s.given|
  {
    Goto(s, t, Idle).(given := s.given[t := Some(p)])
  }

  function SetEntry(s: State, table: nat, i: nat, e: Entry): State
    requires table < |s.tables| && i < |s.tables[table]|
  {
    s.(tables := s.tables[table := s.tables[table][i := e]])
  }

  function Execute(s: State, t: nat): State
    requires Enabled(s, Run(t))
  {
    var pc := s.threads[t];
    var main := s.tables[pc.main];
    match pc
    case Probe(m, j, d) =>
      var e := SlotOf(s, t);
      if e.key == Some(t) then
        if j == m then Return(s, t, e.value.value) else Goto(s, t, Migrate(m, 0, e.value.value))
      else if e.key == None then
        Goto(s, t, if j == 0 then DrawCount(m) else Probe(m, j - 1, 0))
      else Goto(s, t, Probe(m, j, d + 1))
    case Migrate(m, d, v) =>
      Goto(s, t, if main[Pos(s.hash[t], d, |main|)].key == None then MigrateCas(m, d, v) else Migrate(m, d + 1, v))
    case MigrateCas(m, d, v) =>
      var i := Pos(s.hash[t], d, |main|);
      if main[i].key == None then Goto(SetEntry(s, m, i, main[i].(key := Some(t))), t, MigrateStore(m, d, v))
      else Goto(s, t, Migrate(m, d + 1, v))
    case MigrateStore(m, d, v) =>
      var i := Pos(s.hash[t], d, |main|);
      Return(SetEntry(s, m, i, main[i].(value := Some(v))), t, v)
    case DrawCount(m) =>
      Goto(s.(count := s.count + 1), t, TestResize(m, s.count + 1))
    case TestResize(m, count) =>
      if count >= Half(|main|) && !s.resizing then Goto(s.(resizing := true), t, Reload(m, count))
      else Goto(s, t, Decide(m, count))
    case Reload(_, count) =>
      var m := |s.tables| - 1;
      Goto(s, t, if count >= Half(|s.tables[m]|) then Grow(m, count) else Unlock(m, count))
    case Grow(m, count) =>
      var table := seq(GrownCapacity(|main|, count), _ => Entry(None, None));
      Goto(s.(tables := s.tables + [table]), t, Unlock(|s.tables|, count))
    case Unlock(m, count) =>
      Goto(s.(resizing := false), t, Decide(m, count))
    case Decide(m, count) =>
      if count < Limit(|main|) then Goto(s.(producers := s.producers + 1), t, Insert(m, count, s.producers, 0))
      else Goto(s, t, TestResize(|s.tables| - 1, count))
    case Insert(m, count, p, d) =>
      Goto(s, t, if main[Pos(s.hash[t], d, |main|)].key == None then InsertCas(m, count, p, d)
                 else Insert(m, count, p, d + 1))
    case InsertCas(m, count, p, d) =>
      var i := Pos(s.hash[t], d, |main|);
      if main[i].key == None then Goto(SetEntry(s, m, i, main[i].(key := Some(t))), t, InsertStore(m, p, d))
      else Goto(s, t, Insert(m, count, p, d + 1))
    case InsertStore(m, p, d) =>
      var i := Pos(s.hash[t], d, |main|);
      Return(SetEntry(s, m, i, main[i].(value := Some(p))), t, p)
  }

  // ----- The invariant -----

  /** What the proof remembers of each thread: the number it drew from the shared count (0 before it has
      one) and the producer created for it. */
  datatype View = View(drawn: seq<nat>, made: seq<Option<Producer>>)

  /** The first d slots of the probe for h are taken. */
  ghost predicate Busy(table: Table, h: nat, d: nat) {
    |table| > 0 && forall e {:trigger Pos(h, e, |table|)} :: 0 <= e < d ==> table[Pos(h, e, |table|)].key.Some?
  }

  /** ... and none of them by t. */
  ghost predicate Walked(table: Table, h: nat, t: nat, d: nat) {
    Busy(table, h, d) && forall e {:trigger Pos(h, e, |table|)} ::
                           0 <= e < d ==> table[Pos(h, e, |table|)].key != Some(t)
  }

  ghost predicate Placed(table: Table, h: nat, d: nat, i: nat) {
    d < |table| && Pos(h, d, |table|) == i && Busy(table, h, d)
  }

  /** The probe for h reaches slot i past taken slots only. */
  ghost predicate OnPath(table: Table, h: nat, i: nat) {
    exists d :: Placed(table, h, d, i)
  }

  ghost predicate InTable(table: Table, t: nat) {
    exists i :: 0 <= i < |table| && table[i].key == Some(t)
  }

  /** t is in no table from `from` on. */
  ghost predicate Absent(s: State, t: nat, from: nat) {
    forall j :: from <= j < |s.tables| ==> !InTable(s.tables[j], t)
  }

  ghost predicate Present(s: State, t: nat) {
    exists j :: 0 <= j < |s.tables| && InTable(s.tables[j], t)
  }

  /** t has claimed a slot of table j and not yet stored the value. */
  predicate Storing(pc: Pc, j: nat) {
    (pc.MigrateStore? || pc.InsertStore?) && pc.main == j
  }

  ghost predicate EntryOk(s: State, w: View, j: nat, i: nat) {
    j < |s.tables| && i < |s.tables[j]| && (s.tables[j][i].key.Some? ==>
      var t := s.tables[j][i].key.value;
      && t < |s.threads| == |s.hash| && |w.drawn| == |s.threads| && |w.made| == |s.threads|
      && 1 <= w.drawn[t] < Limit(|s.tables[j]|)
      && OnPath(s.tables[j], s.hash[t], i)
      && (!Storing(s.threads[t], j) ==> w.made[t].Some? && s.tables[j][i].value == w.made[t]))
  }

  ghost predicate TableOk(s: State, w: View, j: nat) {
    && j < |s.tables| && |s.tables[j]| > 0
    && (forall i {:trigger EntryOk(s, w, j, i)} :: 0 <= i < |s.tables[j]| ==> EntryOk(s, w, j, i))
    && (forall i, k :: 0 <= i < k < |s.tables[j]| && s.tables[j][i].key.Some? ==>
        s.tables[j][i].key != s.tables[j][k].key)
  }

  ghost predicate Rising(s: State) {
    forall i, j :: 0 <= i < j < |s.tables| ==> |s.tables[i]| < |s.tables[j]|
  }

  predicate InResize(pc: Pc) { pc.Reload? || pc.Grow? || pc.Unlock? }

  /** Registered threads are in a table; others are in none and have drawn nothing. */
  ghost predicate Known(s: State, w: View, t: nat)
    requires t < |s.given| && t < |w.drawn| && t < |w.made|
  {
    if s.given[t].Some? then s.given[t] == w.made[t] && Present(s, t)
    else Absent(s, t, 0) && w.drawn[t] == 0 && w.made[t] == None
  }

  ghost predicate PcOk(s: State, w: View, t: nat, pc: Pc)
    requires Shaped(s) && t < |s.threads| && |w.drawn| == |s.threads| && |w.made| == |s.threads|
  {
    && (pc.Idle? ==> Known(s, w, t))
    && (!pc.Idle? ==> pc.main < |s.tables|)
    && (pc.Probe? ==>
        && Known(s, w, t) && pc.table <= pc.main && Absent(s, t, pc.table + 1)
        && pc.d < |s.tables[pc.table]| && Walked(s.tables[pc.table], s.hash[t], t, pc.d))
    && (pc.Migrate? || pc.MigrateCas? ==>
        && Known(s, w, t) && s.given[t].Some? && w.made[t] == Some(pc.value) && !InTable(s.tables[pc.main], t)
        && 1 <= w.drawn[t] < Limit(|s.tables[pc.main]|)
        && pc.d < |s.tables[pc.main]| && Busy(s.tables[pc.main], s.hash[t], pc.d))
    && (pc.MigrateStore? ==>
        && Known(s, w, t) && s.given[t].Some? && w.made[t] == Some(pc.value) && |s.tables[pc.main]| > 0
        && s.tables[pc.main][Pos(s.hash[t], pc.d, |s.tables[pc.main]|)].key == Some(t))
    && (pc.DrawCount? ==> s.given[t] == None && Known(s, w, t))
    && (pc.TestResize? || InResize(pc) || pc.Decide? ==>
        s.given[t] == None && w.made[t] == None && Absent(s, t, 0) && w.drawn[t] == pc.count >= 1)
    && (InResize(pc) ==> s.resizing)
    && (pc.Grow? ==> pc.main == |s.tables| - 1)
    && (pc.Unlock? ==> pc.count < Half(|s.tables[pc.main]|))
    && (pc.Insert? || pc.InsertCas? ==>
        && s.given[t] == None && w.made[t] == Some(pc.producer) && Absent(s, t, 0)
        && w.drawn[t] == pc.count && 1 <= pc.count < Limit(|s.tables[pc.main]|)
        && pc.d < |s.tables[pc.main]| && Busy(s.tables[pc.main], s.hash[t], pc.d))
    && (pc.InsertStore? ==>
        && s.given[t] == None && w.made[t] == Some(pc.producer) && |s.tables[pc.main]| > 0
        && s.tables[pc.main][Pos(s.hash[t], pc.d, |s.tables[pc.main]|)].key == Some(t))
  }

  /** Numbers and producers are handed out once. */
  ghost predicate ViewOk(s: State, w: View) {
    && |w.drawn| == |s.threads| && |w.made| == |s.threads|
    && (forall t :: 0 <= t < |s.threads| ==> w.drawn[t] <= s.count)
    && (forall t, u :: 0 <= t < u < |s.threads| && w.drawn[t] == w.drawn[u] ==> w.drawn[t] == 0)
    && (forall t :: 0 <= t < |s.threads| && w.made[t].Some? ==> w.made[t].value < s.producers)
    && (forall t, u :: 0 <= t < u < |s.threads| && w.made[t].Some? ==> w.made[t] != w.made[u])
  }

  ghost predicate LockOk(s: State) {
    forall t, u :: 0 <= t < u < |s.threads| ==> !(InResize(s.threads[t]) && InResize(s.threads[u]))
  }

  ghost predicate Inv(s: State, w: View) {
    && Shaped(s) && ViewOk(s, w) && Rising(s) && LockOk(s)
    && (forall j {:trigger TableOk(s, w, j)} :: 0 <= j < |s.tables| ==> TableOk(s, w, j))
    && (forall t {:trigger PcOk(s, w, t, s.threads[t])} :: 0 <= t < |s.threads| ==> PcOk(s, w, t, s.threads[t]))
  }

  // ----- A table is never full -----

  /** Distinct numbers between 1 and b - 1 are fewer than b. */
  lemma {:induction false} Pigeonhole(xs: seq<nat>, b: nat)
    requires forall i :: 0 <= i < |xs| ==> 1 <= xs[i] < b
    requires forall i, j :: 0 <= i < j < |xs| ==> xs[i] != xs[j]
    ensures xs == [] || |xs| < b
    decreases b
  {
    if xs != [] {
      assert 1 <= xs[0] < b;
      if exists i :: 0 <= i < |xs| && xs[i] == b - 1 {
        var i :| 0 <= i < |xs| && xs[i] == b - 1;
        var ys := xs[..i] + xs[i + 1..];
        forall k | 0 <= k < |ys| ensures ys[k] == xs[if k < i then k else k + 1] {}
        Pigeonhole(ys, b - 1);
      } else {
        Pigeonhole(xs, b - 1);
      }
    }
  }

  /** The numbers drawn by the threads whose keys are in the table, in slot order. */
  ghost function Numbers(table: Table, drawn: seq<nat>): seq<nat> {
    if table == [] then []
    else
      var rest := Numbers(table[1..], drawn);
      if table[0].key.Some? && table[0].key.value < |drawn| then [drawn[table[0].key.value]] + rest else rest
  }

  function Taken(e: Entry): nat { if e.key.Some? then 1 else 0 }

  ghost function TakenOf(): Entry -> nat { e => Taken(e) }

  /** The number of keys in a table. */
  ghost function Keys(table: Table): nat { Sum(TakenOf(), table) }

  ghost predicate Countable(table: Table, drawn: seq<nat>, limit: nat) {
    && (forall i :: 0 <= i < |table| && table[i].key.Some? ==>
        table[i].key.value < |drawn| && 1 <= drawn[table[i].key.value] < limit)
    && (forall i, k :: 0 <= i < k < |table| && table[i].key.Some? && table[k].key.Some? ==>
        table[i].key.value != table[k].key.value)
  }

  ghost predicate DrawnBy(table: Table, drawn: seq<nat>, i: nat, x: nat) {
    i < |table| && table[i].key.Some? && table[i].key.value < |drawn| && drawn[table[i].key.value] == x
  }

  lemma {:induction false} NumbersDistinct(table: Table, drawn: seq<nat>, limit: nat)
    requires Countable(table, drawn, limit)
    requires forall t, u :: 0 <= t < u < |drawn| && drawn[t] == drawn[u] ==> drawn[t] == 0
    ensures |Numbers(table, drawn)| == Keys(table)
    ensures forall x :: x in Numbers(table, drawn) ==> 1 <= x < limit && exists i: nat :: DrawnBy(table, drawn, i, x)
    ensures forall i, j :: 0 <= i < j < |Numbers(table, drawn)| ==> Numbers(table, drawn)[i] != Numbers(table, drawn)[j]
  {
    if table != [] {
      var rest := table[1..];
      assert forall i :: 0 <= i < |rest| ==> rest[i] == table[i + 1];
      NumbersDistinct(rest, drawn, limit);
      forall x | x in Numbers(rest, drawn) ensures exists i: nat :: DrawnBy(table, drawn, i, x) {
        var i: nat :| DrawnBy(rest, drawn, i, x);
        assert DrawnBy(table, drawn, i + 1, x);
      }
      if table[0].key.Some? {
        assert DrawnBy(table, drawn, 0, drawn[table[0].key.value]);
        forall y | y in Numbers(rest, drawn) ensures y != drawn[table[0].key.value] {
          var i: nat :| DrawnBy(rest, drawn, i, y);
          assert table[i + 1].key.value != table[0].key.value;
        }
        var xs, ys := Numbers(table, drawn), Numbers(rest, drawn);
        forall i, j | 0 <= i < j < |xs| ensures xs[i] != xs[j] {
          assert xs[j] == ys[j - 1] && xs[j] in ys;
        }
      }
    }
  }

  /** The load bound: every table, however old, holds fewer than three quarters of its capacity. */
  lemma LoadBound(s: State, w: View, j: nat)
    requires Inv(s, w) && j < |s.tables|
    ensures Keys(s.tables[j]) == 0 || Keys(s.tables[j]) < Limit(|s.tables[j]|)
  {
    assert TableOk(s, w, j);
    forall i | 0 <= i < |s.tables[j]| && s.tables[j][i].key.Some?
      ensures s.tables[j][i].key.value < |w.drawn| && 1 <= w.drawn[s.tables[j][i].key.value] < Limit(|s.tables[j]|)
    {
      assert EntryOk(s, w, j, i);
    }
    var xs := Numbers(s.tables[j], w.drawn);
    NumbersDistinct(s.tables[j], w.drawn, Limit(|s.tables[j]|));
    forall i | 0 <= i < |xs| ensures 1 <= xs[i] < Limit(|s.tables[j]|) { assert xs[i] in xs; }
    Pigeonhole(xs, Limit(|s.tables[j]|));
  }

  lemma {:induction false} AllTaken(table: Table)
    requires forall i :: 0 <= i < |table| ==> table[i].key.Some?
    ensures Keys(table) == |table|
  {
    if table != [] {
      assert forall i :: 0 <= i < |table[1..]| ==> table[1..][i] == table[i + 1];
      AllTaken(table[1..]);
    }
  }

  lemma {:induction false} PosAhead(h: nat, d: nat, capacity: nat)
    requires d <= capacity && capacity > 0
    ensures Pos(h, d, capacity) ==
      if Pos(h, 0, capacity) + d < capacity then Pos(h, 0, capacity) + d else Pos(h, 0, capacity) + d - capacity
  {
    if d > 0 { PosAhead(h, d - 1, capacity); }
  }

  /** A probe cannot have walked a whole table past taken slots: an empty slot ends it before that. */
  lemma ProbeEnds(s: State, w: View, j: nat, h: nat, d: nat)
    requires Inv(s, w) && j < |s.tables| && d < |s.tables[j]| && Busy(s.tables[j], h, d)
    requires s.tables[j][Pos(h, d, |s.tables[j]|)].key.Some?
    ensures d + 1 < |s.tables[j]| && Busy(s.tables[j], h, d + 1)
  {
    var table := s.tables[j];
    LoadBound(s, w, j);
    if d + 1 == |table| {
      forall i | 0 <= i < |table| ensures table[i].key.Some? {
        var first := Pos(h, 0, |table|);
        var e := if i >= first then i - first else i - first + |table|;
        PosAhead(h, e, |table|);
        assert Pos(h, e, |table|) == i;
      }
      AllTaken(table);
    }
  }

  // ----- What a step of thread t leaves alone -----

  /** Slots keep their keys; at most, empty slots are taken by t, and new tables are empty. */
  ghost predicate KeysGrow(s: State, s': State, t: nat) {
    && |s.tables| <= |s'.tables|
    && (forall j :: 0 <= j < |s.tables| ==> SlotsGrow(s.tables[j], s'.tables[j], t))
    && (forall j, i :: |s.tables| <= j < |s'.tables| && 0 <= i < |s'.tables[j]| ==> s'.tables[j][i].key == None)
  }

  ghost predicate SlotsGrow(a: Table, b: Table, t: nat) {
    && |a| == |b|
    && forall i :: 0 <= i < |a| ==> b[i].key == a[i].key || (a[i].key == None && b[i].key == Some(t))
  }

  lemma BusyGrows(a: Table, b: Table, t: nat, h: nat, d: nat)
    requires SlotsGrow(a, b, t) && Busy(a, h, d)
    ensures Busy(b, h, d)
  {}

  lemma WalkedGrows(a: Table, b: Table, t: nat, h: nat, u: nat, d: nat)
    requires SlotsGrow(a, b, t) && u != t && Walked(a, h, u, d)
    ensures Walked(b, h, u, d)
  {
    BusyGrows(a, b, t, h, d);
    forall e {:trigger Pos(h, e, |b|)} | 0 <= e < d ensures b[Pos(h, e, |b|)].key != Some(u) {
      assert a[Pos(h, e, |a|)].key != Some(u);
    }
  }

  lemma SameKeys(a: Table, b: Table, t: nat, u: nat)
    requires SlotsGrow(a, b, t)
    ensures InTable(a, u) ==> InTable(b, u)
    ensures u != t && InTable(b, u) ==> InTable(a, u)
  {
    if InTable(a, u) {
      var i :| 0 <= i < |a| && a[i].key == Some(u);
      assert b[i].key == Some(u);
    }
  }

  lemma SameAbsent(s: State, s': State, t: nat, u: nat, from: nat)
    requires KeysGrow(s, s', t) && u != t && Absent(s, u, from)
    ensures Absent(s', u, from)
  {
    forall j | from <= j < |s'.tables| ensures !InTable(s'.tables[j], u) {
      if j < |s.tables| { SameKeys(s.tables[j], s'.tables[j], t, u); }
    }
  }

  lemma StillPresent(s: State, s': State, t: nat, u: nat)
    requires KeysGrow(s, s', t) && Present(s, u)
    ensures Present(s', u)
  {
    var j :| 0 <= j < |s.tables| && InTable(s.tables[j], u);
    SameKeys(s.tables[j], s'.tables[j], t, u);
  }

  lemma KnownKept(s: State, s': State, w: View, w': View, t: nat, u: nat)
    requires KeysGrow(s, s', t) && u != t
    requires u < |s.given| == |s'.given| && u < |w.drawn| == |w'.drawn| && u < |w.made| == |w'.made|
    requires s'.given[u] == s.given[u] && w'.drawn[u] == w.drawn[u] && w'.made[u] == w.made[u]
    requires Known(s, w, u)
    ensures Known(s', w', u)
  {
    if s.given[u].Some? { StillPresent(s, s', t, u); } else { SameAbsent(s, s', t, u, 0); }
  }

  /** The part of the state that belongs to thread u is as it was. */
  ghost predicate Untouched(s: State, s': State, w: View, w': View, t: nat, u: nat) {
    && Shaped(s) && Shaped(s') && u < |s.threads| == |s'.threads| && s'.hash == s.hash && u != t
    && |w.drawn| == |w'.drawn| == |w.made| == |w'.made| == |s.threads|
    && s'.given[u] == s.given[u] && w'.drawn[u] == w.drawn[u] && w'.made[u] == w.made[u]
    && KeysGrow(s, s', t)
  }

  lemma OtherPc(s: State, s': State, w: View, w': View, t: nat, u: nat)
    requires Untouched(s, s', w, w', t, u) && PcOk(s, w, u, s.threads[u])
    requires InResize(s.threads[u]) ==> s'.resizing
    requires s.threads[u].Grow? ==> |s'.tables| == |s.tables|
    ensures PcOk(s', w', u, s.threads[u])
  {
    var pc := s.threads[u];
    if pc.Idle? || pc.Probe? || pc.DrawCount? || pc.Migrate? || pc.MigrateCas? || pc.MigrateStore? {
      KnownKept(s, s', w, w', t, u);
    }
    if pc.Probe? {
      SameAbsent(s, s', t, u, pc.table + 1);
      WalkedGrows(s.tables[pc.table], s'.tables[pc.table], t, s.hash[u], u, pc.d);
    } else if pc.Migrate? || pc.MigrateCas? {
      SameKeys(s.tables[pc.main], s'.tables[pc.main], t, u);
      BusyGrows(s.tables[pc.main], s'.tables[pc.main], t, s.hash[u], pc.d);
    } else if pc.TestResize? || InResize(pc) || pc.Decide? {
      SameAbsent(s, s', t, u, 0);
    } else if pc.Insert? || pc.InsertCas? {
      SameAbsent(s, s', t, u, 0);
      BusyGrows(s.tables[pc.main], s'.tables[pc.main], t, s.hash[u], pc.d);
    }
  }

  /** Entries under other keys are as they were. */
  lemma OtherEntry(s: State, s': State, w: View, w': View, t: nat, j: nat, i: nat)
    requires Shaped(s) && Shaped(s') && |s'.threads| == |s.threads| && s'.hash == s.hash && KeysGrow(s, s', t)
    requires |w'.drawn| == |w'.made| == |s.threads|
    requires EntryOk(s, w, j, i) && s'.tables[j][i] == s.tables[j][i]
    requires s.tables[j][i].key.Some? ==>
      var u := s.tables[j][i].key.value;
      && w'.drawn[u] == w.drawn[u]
      && (w'.made[u] == w.made[u] || Storing(s'.threads[u], j))
      && (Storing(s.threads[u], j) ==> Storing(s'.threads[u], j))
    ensures EntryOk(s', w', j, i)
  {
    if s.tables[j][i].key.Some? {
      var h := s.hash[s.tables[j][i].key.value];
      var d :| Placed(s.tables[j], h, d, i);
      BusyGrows(s.tables[j], s'.tables[j], t, h, d);
      assert Placed(s'.tables[j], h, d, i);
    }
  }

  // ----- Preservation -----

  /** s' follows from s by a step of thread t that changes at most entry (m, i) of the tables there were. */
  ghost predicate StepOf(s: State, s': State, w: View, w': View, t: nat, m: nat, i: nat) {
    && Shaped(s) && Shaped(s') && t < |s.threads| == |s'.threads| && s'.hash == s.hash && KeysGrow(s, s', t)
    && |w.drawn| == |w'.drawn| == |w.made| == |w'.made| == |s.threads|
    && (forall u :: 0 <= u < |s.threads| && u != t ==>
        s'.threads[u] == s.threads[u] && s'.given[u] == s.given[u]
        && w'.drawn[u] == w.drawn[u] && w'.made[u] == w.made[u])
    && (forall j, k :: 0 <= j < |s.tables| && 0 <= k < |s.tables[j]| && !(j == m && k == i) ==>
        s'.tables[j][k] == s.tables[j][k])
    && (forall j :: |s.tables| <= j < |s'.tables| ==> |s'.tables[j]| > 0)
  }

  /** The other entries under t's own key do not depend on what the step changed about t. */
  ghost predicate OwnEntriesKept(s: State, s': State, w: View, w': View, t: nat, m: nat, i: nat)
    requires StepOf(s, s', w, w', t, m, i)
  {
    forall j, k | 0 <= j < |s.tables| && 0 <= k < |s.tables[j]|
                  && !(j == m && k == i) && s.tables[j][k].key == Some(t) ::
      w'.drawn[t] == w.drawn[t] && w'.made[t] == w.made[t] && (Storing(s.threads[t], j) ==> Storing(s'.threads[t], j))
  }

  lemma ComposeTable(s: State, s': State, w: View, w': View, t: nat, m: nat, i: nat, j: nat)
    requires StepOf(s, s', w, w', t, m, i) && OwnEntriesKept(s, s', w, w', t, m, i)
    requires j < |s.tables| && TableOk(s, w, j)
    requires j == m && i < |s.tables[j]| ==>
      EntryOk(s', w', j, i) && (s'.tables[j][i].key != s.tables[j][i].key ==> !InTable(s.tables[j], t))
    ensures TableOk(s', w', j)
  {
    forall k | 0 <= k < |s'.tables[j]| ensures EntryOk(s', w', j, k) {
      if !(j == m && k == i) {
        assert EntryOk(s, w, j, k);
        OtherEntry(s, s', w, w', t, j, k);
      }
    }
  }

  lemma Compose(s: State, s': State, w: View, w': View, t: nat, m: nat, i: nat)
    requires Inv(s, w) && StepOf(s, s', w, w', t, m, i) && OwnEntriesKept(s, s', w, w', t, m, i)
    requires ViewOk(s', w') && Rising(s') && LockOk(s') && PcOk(s', w', t, s'.threads[t])
    requires m < |s.tables| && i < |s.tables[m]| ==>
      EntryOk(s', w', m, i) && (s'.tables[m][i].key != s.tables[m][i].key ==> !InTable(s.tables[m], t))
    requires ResizersKept(s, s', t)
    ensures Inv(s', w')
  {
    forall u | 0 <= u < |s'.threads| ensures PcOk(s', w', u, s'.threads[u]) {
      if u != t { assert PcOk(s, w, u, s.threads[u]); OtherPc(s, s', w, w', t, u); }
    }
    forall j | 0 <= j < |s'.tables| ensures TableOk(s', w', j) {
      if j < |s.tables| {
        assert TableOk(s, w, j);
        ComposeTable(s, s', w, w', t, m, i, j);
      } else {
        NewTableOk(s', w', j);
      }
    }
  }

  /** The thread that holds the resize lock, if it is not t, keeps it and the chain it saw. */
  ghost predicate ResizersKept(s: State, s': State, t: nat) {
    forall u :: 0 <= u < |s.threads| && u != t && InResize(s.threads[u]) ==>
      s'.resizing && (s.threads[u].Grow? ==> |s'.tables| == |s.tables|)
  }

  lemma ResizersIdle(s: State, s': State, w: View, t: nat)
    requires Inv(s, w) && |s'.tables| == |s.tables| && s'.resizing == s.resizing
    ensures ResizersKept(s, s', t)
  {
    forall u | 0 <= u < |s.threads| && u != t && InResize(s.threads[u]) ensures s'.resizing {
      assert PcOk(s, w, u, s.threads[u]);
    }
  }

  lemma NewTableOk(s: State, w: View, j: nat)
    requires j < |s.tables| && |s.tables[j]| > 0 && forall i :: 0 <= i < |s.tables[j]| ==> s.tables[j][i].key == None
    ensures TableOk(s, w, j)
  {
    forall k | 0 <= k < |s.tables[j]| ensures EntryOk(s, w, j, k) {}
  }

  /** Steps that change nothing but t's program point and the resize flag. */
  lemma Moves(s: State, w: View, t: nat, pc: Pc, resizing: bool)
    requires Inv(s, w) && t < |s.threads| && PcOk(Goto(s, t, pc).(resizing := resizing), w, t, pc)
    requires !s.threads[t].MigrateStore? && !s.threads[t].InsertStore?
    requires InResize(pc) && !InResize(s.threads[t]) ==> !s.resizing
    requires !resizing ==> InResize(s.threads[t]) || !s.resizing
    ensures Inv(Goto(s, t, pc).(resizing := resizing), w)
  {
    var s' := Goto(s, t, pc).(resizing := resizing);
    forall u | 0 <= u < |s.threads| && u != t && InResize(s.threads[u])
      ensures s.resizing && !InResize(s.threads[t])
    {
      assert PcOk(s, w, u, s.threads[u]);
    }
    Compose(s, s', w, w, t, |s.tables|, 0);
  }

  lemma PreserveCall(s: State, w: View, t: nat)
    requires Inv(s, w) && Enabled(s, Call(t))
    ensures Inv(Step(s, Call(t)), w)
  {
    assert PcOk(s, w, t, s.threads[t]) && TableOk(s, w, |s.tables| - 1);
    var pc := Probe(|s.tables| - 1, |s.tables| - 1, 0);
    assert Known(Goto(s, t, pc), w, t) by { KnownSame(s, Goto(s, t, pc), w, t); }
    Moves(s, w, t, pc, s.resizing);
  }

  lemma KnownSame(s: State, s': State, w: View, t: nat)
    requires t < |s.given| == |s'.given| && t < |w.drawn| && t < |w.made|
    requires Known(s, w, t) && s'.given[t] == s.given[t] && s'.tables == s.tables
    ensures Known(s', w, t)
  {}

  /** If the probe meets an empty slot, t is not in that table. */
  lemma NotHere(s: State, w: View, j: nat, t: nat, d: nat)
    requires Inv(s, w) && j < |s.tables| && t < |s.threads| && d < |s.tables[j]|
    requires Walked(s.tables[j], s.hash[t], t, d) && s.tables[j][Pos(s.hash[t], d, |s.tables[j]|)].key == None
    ensures !InTable(s.tables[j], t)
  {
    if InTable(s.tables[j], t) {
      var i :| 0 <= i < |s.tables[j]| && s.tables[j][i].key == Some(t);
      assert TableOk(s, w, j) && EntryOk(s, w, j, i);
      var e :| Placed(s.tables[j], s.hash[t], e, i);
    }
  }

  // Looking up

  lemma FoundValue(s: State, w: View, t: nat)
    requires Inv(s, w) && Enabled(s, Run(t)) && s.threads[t].Probe? && FoundAt(s, t)
    ensures s.given[t].Some? && w.made[t] == s.given[t] == SlotOf(s, t).value
    ensures 1 <= w.drawn[t] < Limit(|s.tables[s.threads[t].table]|)
  {
    var pc := s.threads[t];
    assert PcOk(s, w, t, pc);
    var table := s.tables[pc.table];
    var i := Pos(s.hash[t], pc.d, |table|);
    assert TableOk(s, w, pc.table) && EntryOk(s, w, pc.table, i);
    assert InTable(table, t);
  }

  /** A slot with t's own key always has its value by the time t looks it up. */
  lemma ProbeEnabled(s: State, w: View, t: nat)
    requires Inv(s, w) && t < |s.threads| && !s.threads[t].Idle?
    ensures Enabled(s, Run(t))
  {
    var pc := s.threads[t];
    assert PcOk(s, w, t, pc) && TableOk(s, w, pc.main) && TableOk(s, w, |s.tables| - 1);
    if pc.Probe? {
      assert TableOk(s, w, pc.table);
      var i := Pos(s.hash[t], pc.d, |s.tables[pc.table]|);
      assert EntryOk(s, w, pc.table, i);
    }
  }

  lemma LimitMono(a: nat, b: nat)
    requires a <= b
    ensures Limit(a) <= Limit(b)
  {}

  lemma PreserveFound(s: State, w: View, t: nat)
    requires Inv(s, w) && Enabled(s, Run(t)) && s.threads[t].Probe? && FoundAt(s, t)
    ensures Inv(Execute(s, t), w)
  {
    var pc := s.threads[t];
    assert PcOk(s, w, t, pc);
    FoundValue(s, w, t);
    if pc.table == pc.main {
      assert s.given[t := s.given[t]] == s.given;
      KnownSame(s, Goto(s, t, Idle), w, t);
      Moves(s, w, t, Idle, s.resizing);
    } else {
      var pc' := Migrate(pc.main, 0, SlotOf(s, t).value.value);
      assert TableOk(s, w, pc.main);
      LimitMono(|s.tables[pc.table]|, |s.tables[pc.main]|);
      KnownSame(s, Goto(s, t, pc'), w, t);
      Moves(s, w, t, pc', s.resizing);
    }
  }

  lemma AbsentSoFar(s: State, w: View, t: nat)
    requires Inv(s, w) && Enabled(s, Run(t)) && s.threads[t].Probe? && SlotOf(s, t).key == None
    ensures Absent(s, t, s.threads[t].table)
  {
    var pc := s.threads[t];
    assert PcOk(s, w, t, pc);
    NotHere(s, w, pc.table, t, pc.d);
  }

  lemma PreserveMissed(s: State, w: View, t: nat)
    requires Inv(s, w) && Enabled(s, Run(t)) && s.threads[t].Probe? && SlotOf(s, t).key == None
    ensures Inv(Execute(s, t), w)
  {
    var pc := s.threads[t];
    AbsentSoFar(s, w, t);
    if pc.table == 0 {
      MissedEverywhere(s, w, t);
    } else {
      MissedHere(s, w, t);
    }
  }

  lemma MissedHere(s: State, w: View, t: nat)
    requires Inv(s, w) && Enabled(s, Run(t)) && s.threads[t].Probe? && s.threads[t].table > 0
    requires Absent(s, t, s.threads[t].table)
    ensures Inv(Goto(s, t, Probe(s.threads[t].main, s.threads[t].table - 1, 0)), w)
  {
    var pc := s.threads[t];
    assert PcOk(s, w, t, pc) && TableOk(s, w, pc.table - 1);
    Moves(s, w, t, Probe(pc.main, pc.table - 1, 0), s.resizing);
  }

  /** A thread that is in no table has never been given a producer. */
  lemma MissedEverywhere(s: State, w: View, t: nat)
    requires Inv(s, w) && Enabled(s, Run(t)) && s.threads[t].Probe? && Absent(s, t, 0)
    ensures Inv(Goto(s, t, DrawCount(s.threads[t].main)), w)
  {
    var pc := s.threads[t];
    assert PcOk(s, w, t, pc);
    Moves(s, w, t, DrawCount(pc.main), s.resizing);
  }

  lemma PreserveProbeOn(s: State, w: View, t: nat)
    requires Inv(s, w) && Enabled(s, Run(t)) && s.threads[t].Probe?
    requires SlotOf(s, t).key.Some? && !FoundAt(s, t)
    ensures Inv(Execute(s, t), w)
  {
    var pc := s.threads[t];
    assert PcOk(s, w, t, pc);
    ProbeEnds(s, w, pc.table, s.hash[t], pc.d);
    ProbeOnPcOk(s, w, t);
    Moves(s, w, t, Probe(pc.main, pc.table, pc.d + 1), s.resizing);
  }

  lemma ProbeOnPcOk(s: State, w: View, t: nat)
    requires Enabled(s, Run(t)) && s.threads[t].Probe? && |w.drawn| == |s.threads| && |w.made| == |s.threads|
    requires PcOk(s, w, t, s.threads[t]) && SlotOf(s, t).key.Some? && !FoundAt(s, t)
    requires s.threads[t].d + 1 < |s.tables[s.threads[t].table]|
    ensures PcOk(Execute(s, t), w, t, Execute(s, t).threads[t])
  {
    KnownSame(s, Execute(s, t), w, t);
  }

  // Taking a slot, for a new key or to migrate one

  lemma PreserveWalkMain(s: State, w: View, t: nat)
    requires Inv(s, w) && Enabled(s, Run(t)) && (s.threads[t].Migrate? || s.threads[t].Insert?)
    ensures Inv(Execute(s, t), w)
  {
    var pc, pc' := s.threads[t], Execute(s, t).threads[t];
    assert PcOk(s, w, t, pc);
    if s.tables[pc.main][Pos(s.hash[t], pc.d, |s.tables[pc.main]|)].key.Some? {
      ProbeEnds(s, w, pc.main, s.hash[t], pc.d);
    }
    if pc.Migrate? { KnownSame(s, Goto(s, t, pc'), w, t); }
    Moves(s, w, t, pc', s.resizing);
  }

  lemma PreserveCasFails(s: State, w: View, t: nat)
    requires Inv(s, w) && Enabled(s, Run(t)) && (s.threads[t].MigrateCas? || s.threads[t].InsertCas?)
    requires s.tables[s.threads[t].main][Pos(s.hash[t], s.threads[t].d, |s.tables[s.threads[t].main]|)].key.Some?
    ensures Inv(Execute(s, t), w)
  {
    var pc, pc' := s.threads[t], Execute(s, t).threads[t];
    assert PcOk(s, w, t, pc);
    ProbeEnds(s, w, pc.main, s.hash[t], pc.d);
    if pc.MigrateCas? { KnownSame(s, Goto(s, t, pc'), w, t); }
    Moves(s, w, t, pc', s.resizing);
  }

  lemma PreserveCasTakes(s: State, w: View, t: nat)
    requires Inv(s, w) && Enabled(s, Run(t)) && (s.threads[t].MigrateCas? || s.threads[t].InsertCas?)
    requires s.tables[s.threads[t].main][Pos(s.hash[t], s.threads[t].d, |s.tables[s.threads[t].main]|)].key == None
    ensures Inv(Execute(s, t), w)
  {
    var pc, s' := s.threads[t], Execute(s, t);
    assert PcOk(s, w, t, pc);
    var m, i := pc.main, Pos(s.hash[t], pc.d, |s.tables[pc.main]|);
    TakenSlot(s, s', w, t, m, i, pc.d);
    TakenPcOk(s, w, t);
    Quiet(s, s', w, t);
    Compose(s, s', w, w, t, m, i);
  }

  lemma TakenPcOk(s: State, w: View, t: nat)
    requires Enabled(s, Run(t)) && (s.threads[t].MigrateCas? || s.threads[t].InsertCas?)
    requires |w.drawn| == |s.threads| && |w.made| == |s.threads| && PcOk(s, w, t, s.threads[t])
    requires s.tables[s.threads[t].main][Pos(s.hash[t], s.threads[t].d, |s.tables[s.threads[t].main]|)].key == None
    requires KeysGrow(s, Execute(s, t), t)
    ensures PcOk(Execute(s, t), w, t, Execute(s, t).threads[t])
  {
    if s.threads[t].MigrateCas? { StillPresent(s, Execute(s, t), t, t); }
  }

  /** A step that draws and makes nothing and has no part in the resize lock. */
  lemma Quiet(s: State, s': State, w: View, t: nat)
    requires Inv(s, w) && t < |s.threads| == |s'.threads| && s'.threads == s.threads[t := s'.threads[t]]
    requires !InResize(s'.threads[t]) && |s'.tables| == |s.tables| && s'.resizing == s.resizing
    requires s'.count == s.count && s'.producers == s.producers
    ensures ViewOk(s', w) && LockOk(s') && ResizersKept(s, s', t)
  {
    ResizersIdle(s, s', w, t);
  }

  lemma TakenSlot(s: State, s': State, w: View, t: nat, m: nat, i: nat, d: nat)
    requires Inv(s, w) && t < |s.threads| && m < |s.tables| && d < |s.tables[m]|
    requires i == Pos(s.hash[t], d, |s.tables[m]|) && s.tables[m][i].key == None && Busy(s.tables[m], s.hash[t], d)
    requires s' == SetEntry(s, m, i, s.tables[m][i].(key := Some(t))).(threads := s'.threads)
    requires |s'.threads| == |s.threads| && s'.threads == s.threads[t := s'.threads[t]] && Storing(s'.threads[t], m)
    requires 1 <= w.drawn[t] < Limit(|s.tables[m]|)
    ensures StepOf(s, s', w, w, t, m, i) && EntryOk(s', w, m, i) && Rising(s')
  {
    assert KeysGrow(s, s', t);
    BusyGrows(s.tables[m], s'.tables[m], t, s.hash[t], d);
    assert Placed(s'.tables[m], s.hash[t], d, i);
  }

  /** Storing the value completes the entry and ends the call. */
  lemma PreserveStore(s: State, w: View, t: nat)
    requires Inv(s, w) && Enabled(s, Run(t)) && (s.threads[t].MigrateStore? || s.threads[t].InsertStore?)
    ensures Inv(Execute(s, t), w)
  {
    var pc, s' := s.threads[t], Execute(s, t);
    assert PcOk(s, w, t, pc);
    var m, i := pc.main, Pos(s.hash[t], pc.d, |s.tables[pc.main]|);
    assert TableOk(s, w, m) && EntryOk(s, w, m, i);
    StoredEntry(s, s', w, t, m, i);
    StillPresentAt(s, s', t, m, i);
    assert OwnEntriesKept(s, s', w, w, t, m, i) by {
      forall j, k | 0 <= j < |s.tables| && 0 <= k < |s.tables[j]|
                    && !(j == m && k == i) && s.tables[j][k].key == Some(t)
        ensures j != m
      {}
    }
    Quiet(s, s', w, t);
    Compose(s, s', w, w, t, m, i);
  }

  lemma StillPresentAt(s: State, s': State, t: nat, m: nat, i: nat)
    requires m < |s.tables| == |s'.tables| && i < |s.tables[m]| == |s'.tables[m]|
    requires s'.tables[m][i].key == Some(t)
    ensures Present(s', t)
  {
    assert InTable(s'.tables[m], t);
  }

  lemma StoredEntry(s: State, s': State, w: View, t: nat, m: nat, i: nat)
    requires Inv(s, w) && EntryOk(s, w, m, i) && s.tables[m][i].key == Some(t) && w.made[t].Some?
    requires |s'.given| == |s.given| && s'.given == s.given[t := s'.given[t]]
    requires |s'.threads| == |s.threads| && s'.threads == s.threads[t := Idle]
    requires s' == SetEntry(s, m, i, s.tables[m][i].(value := w.made[t])).(threads := s'.threads, given := s'.given)
    ensures StepOf(s, s', w, w, t, m, i) && EntryOk(s', w, m, i) && Rising(s')
  {
    var h := s.hash[t];
    var d :| Placed(s.tables[m], h, d, i);
    BusyGrows(s.tables[m], s'.tables[m], t, h, d);
    assert Placed(s'.tables[m], h, d, i);
  }

  // Registering a new key

  lemma PreserveDraw(s: State, w: View, t: nat) returns (w': View)
    requires Inv(s, w) && Enabled(s, Run(t)) && s.threads[t].DrawCount?
    ensures Inv(Execute(s, t), w')
  {
    var s' := Execute(s, t);
    assert PcOk(s, w, t, s.threads[t]);
    w' := w.(drawn := w.drawn[t := s.count + 1]);
    ResizersIdle(s, s', w, t);
    NoOwnEntry(s, t);
    assert Absent(s', t, 0);
    Compose(s, s', w, w', t, |s.tables|, 0);
  }

  lemma NoOwnEntry(s: State, t: nat)
    requires Absent(s, t, 0)
    ensures forall j, k :: 0 <= j < |s.tables| && 0 <= k < |s.tables[j]| ==> s.tables[j][k].key != Some(t)
  {
    forall j, k | 0 <= j < |s.tables| && 0 <= k < |s.tables[j]| ensures s.tables[j][k].key != Some(t) {
      assert !InTable(s.tables[j], t);
    }
  }

  lemma PreserveTestResize(s: State, w: View, t: nat)
    requires Inv(s, w) && Enabled(s, Run(t)) && s.threads[t].TestResize?
    ensures Inv(Execute(s, t), w)
  {
    var pc, s' := s.threads[t], Execute(s, t);
    assert PcOk(s, w, t, pc);
    Moves(s, w, t, s'.threads[t], s'.resizing);
  }

  lemma PreserveReload(s: State, w: View, t: nat)
    requires Inv(s, w) && Enabled(s, Run(t)) && (s.threads[t].Reload? || s.threads[t].Unlock?)
    ensures Inv(Execute(s, t), w)
  {
    var pc, s' := s.threads[t], Execute(s, t);
    assert PcOk(s, w, t, pc);
    Moves(s, w, t, s'.threads[t], s'.resizing);
  }

  /** Only the holder of the resize lock extends the chain, and it extends the chain it has seen. */
  lemma PreserveGrow(s: State, w: View, t: nat)
    requires Inv(s, w) && Enabled(s, Run(t)) && s.threads[t].Grow?
    ensures Inv(Execute(s, t), w)
  {
    var pc, s' := s.threads[t], Execute(s, t);
    assert PcOk(s, w, t, pc);
    assert KeysGrow(s, s', t);
    assert ResizersKept(s, s', t);
    GrownRising(s, s', pc);
    assert Absent(s', t, 0) by { GrownAbsent(s, s', t); }
    Compose(s, s', w, w, t, |s.tables|, 0);
  }

  lemma GrownAbsent(s: State, s': State, t: nat)
    requires KeysGrow(s, s', t) && s'.tables[..|s.tables|] == s.tables && Absent(s, t, 0)
    ensures Absent(s', t, 0)
  {
    forall j | 0 <= j < |s'.tables| ensures !InTable(s'.tables[j], t) {
      if j < |s.tables| { assert s'.tables[j] == s.tables[j]; }
    }
  }

  lemma GrownRising(s: State, s': State, pc: Pc)
    requires Rising(s) && s.tables != [] && pc.Grow? && pc.main == |s.tables| - 1 && |s.tables[pc.main]| > 0
    requires |s'.tables| == |s.tables| + 1 && s'.tables[..|s.tables|] == s.tables
    requires |s'.tables[|s.tables|]| == GrownCapacity(|s.tables[pc.main]|, pc.count)
    ensures Rising(s')
  {
    forall i, j | 0 <= i < j < |s'.tables| ensures |s'.tables[i]| < |s'.tables[j]| {
      assert s'.tables[i] == s.tables[i];
      if j < |s.tables| { assert s'.tables[j] == s.tables[j]; }
    }
  }

  lemma PreserveDecide(s: State, w: View, t: nat) returns (w': View)
    requires Inv(s, w) && Enabled(s, Run(t)) && s.threads[t].Decide?
    ensures Inv(Execute(s, t), w')
  {
    if s.threads[t].count < Limit(|s.tables[s.threads[t].main]|) {
      w' := PreserveAdmit(s, w, t);
    } else {
      w' := w;
      assert PcOk(s, w, t, s.threads[t]);
      Moves(s, w, t, Execute(s, t).threads[t], s.resizing);
    }
  }

  /** A new producer is made for a thread whose number leaves room in its table. */
  lemma PreserveAdmit(s: State, w: View, t: nat) returns (w': View)
    requires Inv(s, w) && Enabled(s, Run(t)) && s.threads[t].Decide?
    requires s.threads[t].count < Limit(|s.tables[s.threads[t].main]|)
    ensures Inv(Execute(s, t), w')
  {
    var pc, s' := s.threads[t], Execute(s, t);
    w' := w.(made := w.made[t := Some(s.producers)]);
    assert PcOk(s, w, t, pc) && TableOk(s, w, pc.main);
    ResizersIdle(s, s', w, t);
    NoOwnEntry(s, t);
    assert Absent(s', t, 0);
    AdmitPcOk(s, w, w', t);
    Compose(s, s', w, w', t, |s.tables|, 0);
  }

  lemma AdmitPcOk(s: State, w: View, w': View, t: nat)
    requires Enabled(s, Run(t)) && s.threads[t].Decide? && |w.drawn| == |s.threads| && |w.made| == |s.threads|
    requires PcOk(s, w, t, s.threads[t]) && w' == w.(made := w.made[t := Some(s.producers)])
    requires s.threads[t].count < Limit(|s.tables[s.threads[t].main]|)
    ensures PcOk(Execute(s, t), w', t, Execute(s, t).threads[t])
  {}

  lemma PreserveStep(s: State, w: View, a: Action) returns (w': View)
    requires Inv(s, w) && Enabled(s, a)
    ensures Inv(Step(s, a), w')
  {
    w' := w;
    match a
    case Call(t) => PreserveCall(s, w, t);
    case Run(t) =>
      var pc := s.threads[t];
      if pc.Probe? {
        if FoundAt(s, t) { PreserveFound(s, w, t); }
        else if SlotOf(s, t).key == None { PreserveMissed(s, w, t); }
        else { PreserveProbeOn(s, w, t); }
      } else if pc.Migrate? || pc.Insert? {
        PreserveWalkMain(s, w, t);
      } else if pc.MigrateCas? || pc.InsertCas? {
        if s.tables[pc.main][Pos(s.hash[t], pc.d, |s.tables[pc.main]|)].key == None { PreserveCasTakes(s, w, t); }
        else { PreserveCasFails(s, w, t); }
      } else if pc.MigrateStore? || pc.InsertStore? {
        PreserveStore(s, w, t);
      } else if pc.DrawCount? {
        w' := PreserveDraw(s, w, t);
      } else if pc.TestResize? {
        PreserveTestResize(s, w, t);
      } else if pc.Reload? || pc.Unlock? {
        PreserveReload(s, w, t);
      } else if pc.Grow? {
        PreserveGrow(s, w, t);
      } else {
        w' := PreserveDecide(s, w, t);
      }
  }

  // ----- Runs -----

  ghost predicate Init(s: State) {
    && Shaped(s) && |s.tables| == 1 && |s.tables[0]| > 0 && !s.resizing && s.count == 0
    && (forall i :: 0 <= i < |s.tables[0]| ==> s.tables[0][i] == Entry(None, None))
    && (forall t :: 0 <= t < |s.threads| ==> s.threads[t] == Idle && s.given[t] == None)
  }

  ghost predicate Follows(p: State, a: Action, s: State) {
    Enabled(p, a) && s == Step(p, a)
  }

  ghost predicate Reaches(run: Trace<Action>, s: State) {
    match run
    case Start => Init(s)
    case Then(before, a) => exists p :: Reaches(before, p) && Follows(p, a, s)
  }

  ghost predicate Reachable(s: State) {
    Shaped(s) && exists run :: Reaches(run, s)
  }

  lemma InitInv(s: State) returns (w: View)
    requires Init(s)
    ensures Inv(s, w)
  {
    w := View(seq(|s.threads|, _ => 0), seq(|s.threads|, _ => None));
    NewTableOk(s, w, 0);
    forall t | 0 <= t < |s.threads| ensures PcOk(s, w, t, s.threads[t]) {}
  }

  lemma {:induction false} RunInv(run: Trace<Action>, s: State) returns (w: View)
    requires Reaches(run, s)
    ensures Inv(s, w)
    decreases run
  {
    match run
    case Start => w := InitInv(s);
    case Then(before, a) =>
      var p :| Reaches(before, p) && Follows(p, a, s);
      var v := RunInv(before, p);
      w := PreserveStep(p, v, a);
  }

  lemma ReachableInv(s: State) returns (w: View)
    requires Reachable(s)
    ensures Inv(s, w)
  {
    var run :| Reaches(run, s);
    w := RunInv(run, s);
  }

  // ----- What holds in every reachable state -----

  /** Every table, the stale ones included, is less than three quarters full, so it has an empty slot. */
  lemma NoTableFillsUp(s: State, j: nat) returns (i: nat)
    requires Reachable(s) && j < |s.tables|
    ensures Keys(s.tables[j]) == 0 || Keys(s.tables[j]) < Limit(|s.tables[j]|)
    ensures i < |s.tables[j]| && s.tables[j][i].key == None
  {
    var w := ReachableInv(s);
    LoadBound(s, w, j);
    assert TableOk(s, w, j);
    if forall k :: 0 <= k < |s.tables[j]| ==> s.tables[j][k].key.Some? { AllTaken(s.tables[j]); }
    i :| 0 <= i < |s.tables[j]| && s.tables[j][i].key == None;
  }

  /** How far a probing thread has gone, and in which table. */
  function ProbeOf(pc: Pc): Option<(nat, nat)> {
    match pc
    case Probe(_, j, d) => Some((j, d))
    case Migrate(m, d, _) => Some((m, d))
    case MigrateCas(m, d, _) => Some((m, d))
    case Insert(m, _, _, d) => Some((m, d))
    case InsertCas(m, _, _, d) => Some((m, d))
    case _ => None
  }

  /** No linear probe looks at more slots than its table has, whatever the other threads do meanwhile, and no
      call is ever stuck: the slot a thread finds under its own key already holds its producer. */
  lemma ProbesEnd(s: State, t: nat)
    requires Reachable(s) && t < |s.threads|
    ensures ProbeOf(s.threads[t]).Some? ==>
      ProbeOf(s.threads[t]).value.0 < |s.tables|
      && ProbeOf(s.threads[t]).value.1 < |s.tables[ProbeOf(s.threads[t]).value.0]|
    ensures Enabled(s, if s.threads[t].Idle? then Call(t) else Run(t))
  {
    var w := ReachableInv(s);
    assert PcOk(s, w, t, s.threads[t]);
    if !s.threads[t].Idle? { ProbeEnabled(s, w, t); }
  }

  /** A thread that has been given a producer is given the same one by every later call, through any number of
      concurrent resizes and migrations. */
  lemma SameProducerAgain(s: State, a: Action, t: nat)
    requires Reachable(s) && Enabled(s, a) && t < |s.threads| && s.given[t].Some?
    ensures Step(s, a).given[t] == s.given[t]
  {
    var w := ReachableInv(s);
    if a == Run(t) {
      assert PcOk(s, w, t, s.threads[t]);
      if s.threads[t].Probe? && FoundAt(s, t) { FoundValue(s, w, t); }
    }
  }

  /** No two threads are given the same producer. */
  lemma ProducersNotShared(s: State, t: nat, u: nat)
    requires Reachable(s) && t < |s.threads| && u < |s.threads| && t != u && s.given[t].Some?
    ensures s.given[t] != s.given[u]
  {
    var w := ReachableInv(s);
    GivenIsMade(s, w, t);
    if s.given[u].Some? { GivenIsMade(s, w, u); }
  }

  lemma GivenIsMade(s: State, w: View, t: nat)
    requires Inv(s, w) && t < |s.threads| && s.given[t].Some?
    ensures s.given[t] == w.made[t]
  {
    assert PcOk(s, w, t, s.threads[t]);
  }

  /** A thread that has just extended the table, or found it extended, is always admitted to it. */
  lemma AdmittedAfterResize(s: State, t: nat)
    requires Reachable(s) && t < |s.threads| && s.threads[t].Unlock?
    ensures s.threads[t].main < |s.tables| && s.threads[t].count < Limit(|s.tables[s.threads[t].main]|)
  {
    var w := ReachableInv(s);
    assert PcOk(s, w, t, s.threads[t]);
  }

  /** One thread at most is extending the table. */
  lemma OneResizer(s: State, t: nat, u: nat)
    requires Reachable(s) && t < |s.threads| && u < |s.threads| && InResize(s.threads[t]) && InResize(s.threads[u])
    ensures t == u && s.resizing
  {
    var w := ReachableInv(s);
    assert PcOk(s, w, t, s.threads[t]);
  }
}
