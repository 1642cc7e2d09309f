/** The counters by which the consumers of one producer queue decide who may take which element
    (ProducerBase, and dequeue and dequeue_bulk of both producers in concurrentqueue.h). Every load and
    fetch_add is one step; one enqueuer, any number of consumers. Counters are unbounded here; the last
    section shows that the source's wrapped comparisons decide the same. A single dequeue makes the same
    steps as a bulk dequeue of at most one element. */
module DequeueCounters {
  import opened Prelude

  /** A consumer's program point: `max` wanted, and the locals tail, overcommit, myDequeueCount,
      desiredCount and actualCount of the source. */
  datatype Pc =
    | Idle
    | LoadOvercommit(max: nat, tail: nat)
    | LoadOptimistic(max: nat, tail: nat, over: nat)
    | AddOptimistic(desired: nat, over: nat)
    | Recheck(desired: nat, over: nat, my: nat)
    | Settle(my: nat, actual: nat, excess: nat)
    | TakeHead(my: nat, actual: nat)
    | GiveBack(my: nat, desired: nat)

  /** Consumer `who` took the elements at first, first + 1, ..., first + count - 1. */
  datatype Claim = Claim(who: nat, first: nat, count: nat)

  /** `written` holds every element constructed so far, from index 0; `claims` the claims made so far. */
  datatype State<T> = State(
    written: seq<T>, tailIndex: nat, headIndex: nat,
    dequeueOptimisticCount: nat, dequeueOvercommit: nat,
    consumers: seq<Pc>, claims: seq<Claim>)

  datatype Action<T> = Write(items: seq<T>) | Publish | Call(t: nat, max: nat) | Run(t: nat)

  predicate Enabled<T>(s: State<T>, a: Action<T>) {
    match a
    case Write(_) => true
    case Publish => true
    case Call(t, _) => t < |s.consumers| && s.consumers[t].Idle?
    case Run(t) => t < |s.consumers| && !s.consumers[t].Idle?
  }

  function Step<T>(s: State<T>, a: Action<T>): State<T>
    requires Enabled(s, a)
  {
    match a
    case Write(items) => s.(written := s.written + items)
    case Publish => s.(tailIndex := |s.written|)
    case Call(t, max) => Goto(s, t, LoadOvercommit(max, s.tailIndex))
    case Run(t) => Execute(s, t)
  }

  function Goto<T>(s: State<T>, t: nat, pc: Pc): State<T>
    requires t < |s.consumers|
  {
    s.(consumers := s.consumers[t := pc])
  }

  function Execute<T>(s: State<T>, t: nat): State<T>
    requires t < |s.consumers| && !s.consumers[t].Idle?
  {
    match s.consumers[t]
    case LoadOvercommit(max, tail) =>
      Goto(s, t, LoadOptimistic(max, tail, s.dequeueOvercommit))
    case LoadOptimistic(max, tail, over) =>
      var room := tail - (s.dequeueOptimisticCount - over);
      Goto(s, t, if room > 0 then AddOptimistic(Min(room, max), over) else Idle)
    case AddOptimistic(desired, over) =>
      Goto(s.(dequeueOptimisticCount := s.dequeueOptimisticCount + desired), t,
           Recheck(desired, over, s.dequeueOptimisticCount))
    case Recheck(desired, over, my) =>
      Goto(s, t, AfterRecheck(s.tailIndex, desired, over, my))
    case Settle(my, actual, excess) =>
      Goto(s.(dequeueOvercommit := s.dequeueOvercommit + excess), t, TakeHead(my, actual))
    case TakeHead(my, actual) =>
      Goto(s.(headIndex := s.headIndex + actual, claims := s.claims + [Claim(t, s.headIndex, actual)]), t, Idle)
    case GiveBack(my, desired) =>
      Goto(s.(dequeueOvercommit := s.dequeueOvercommit + desired), t, Idle)
  }

  /** The decision after the tail was loaded a second time. */
  function AfterRecheck(tail: nat, desired: nat, over: nat, my: nat): Pc {
    var room := tail - (my - over);
    if room <= 0 then GiveBack(my, desired)
    else if room < desired then Settle(my, room, desired - room)
    else TakeHead(my, desired)
  }

  // ----- The ledger: what became of every unit of dequeueOptimisticCount -----

  /** A unit is undecided, granted but not yet taken from headIndex, taken, or given back. */
  datatype Unit = Pending(who: nat) | Granted(who: nat) | Taken | Returned

  ghost function IsReturned(): Unit -> nat { (u: Unit) => if u.Returned? then 1 else 0 }
  ghost function IsKept(): Unit -> nat { (u: Unit) => if u.Returned? then 0 else 1 }
  ghost function IsTaken(): Unit -> nat { (u: Unit) => if u.Taken? then 1 else 0 }
  ghost function IsGrantedOrTaken(): Unit -> nat { (u: Unit) => if u.Taken? || u.Granted? then 1 else 0 }

  /** Units below k that were not given back: the effective dequeue count when unit k was drawn. */
  ghost function Kept(units: seq<Unit>, k: nat): nat
    requires k <= |units|
  {
    Sum(IsKept(), units[..k])
  }

  /** When unit i was counted, the effective dequeue count stayed within the tail. */
  ghost predicate Fits(units: seq<Unit>, i: nat, tail: nat) {
    i < |units| && Kept(units, i + 1) <= tail
  }

  /** The n units of thread t from lo are undecided. */
  predicate AllPending(units: seq<Unit>, t: nat, lo: nat, n: nat) {
    lo + n <= |units| && forall i :: lo <= i < lo + n ==> units[i] == Pending(t)
  }

  predicate AllGranted(units: seq<Unit>, t: nat, lo: nat, n: nat) {
    lo + n <= |units| && forall i :: lo <= i < lo + n ==> units[i] == Granted(t)
  }

  ghost predicate PcOk<T>(s: State<T>, units: seq<Unit>, t: nat, pc: Pc) {
    match pc
    case Idle => true
    case LoadOvercommit(_, _) => true
    case LoadOptimistic(_, _, over) => over <= s.dequeueOvercommit
    case AddOptimistic(_, over) => over <= s.dequeueOvercommit
    case Recheck(desired, over, my) =>
      AllPending(units, t, my, desired) && over + Kept(units, my) <= my
    case Settle(my, actual, excess) =>
      AllGranted(units, t, my, actual) && AllPending(units, t, my + actual, excess)
    case TakeHead(my, actual) => AllGranted(units, t, my, actual)
    case GiveBack(my, desired) => AllPending(units, t, my, desired)
  }

  /** Unit i is one that thread pc has yet to decide or to take. */
  predicate Holds(pc: Pc, i: nat, granted: bool) {
    match pc
    case Recheck(desired, _, my) => my <= i < my + desired && !granted
    case Settle(my, actual, excess) =>
      if granted then my <= i < my + actual else my + actual <= i < my + actual + excess
    case TakeHead(my, actual) => my <= i < my + actual && granted
    case GiveBack(my, desired) => my <= i < my + desired && !granted
    case _ => false
  }

  /** Every open unit belongs to the thread it names. */
  ghost predicate UnitOk<T>(s: State<T>, units: seq<Unit>, i: nat)
    requires i < |units|
  {
    && (units[i].Pending? ==> units[i].who < |s.consumers| && Holds(s.consumers[units[i].who], i, false))
    && (units[i].Granted? ==> units[i].who < |s.consumers| && Holds(s.consumers[units[i].who], i, true))
    && (units[i].Granted? || units[i].Taken? ==> Fits(units, i, s.tailIndex))
  }

  /** The claims tile the indices below headIndex, in order. */
  ghost predicate Tiled(claims: seq<Claim>, head: nat) {
    if claims == [] then head == 0
    else
      var last := claims[|claims| - 1];
      head == last.first + last.count && Tiled(claims[..|claims| - 1], last.first)
  }

  ghost predicate Inv<T>(s: State<T>, units: seq<Unit>) {
    && s.tailIndex <= |s.written|
    && |units| == s.dequeueOptimisticCount
    && Sum(IsReturned(), units) == s.dequeueOvercommit
    && Sum(IsTaken(), units) == s.headIndex
    && Tiled(s.claims, s.headIndex)
    && (forall t :: 0 <= t < |s.consumers| ==> PcOk(s, units, t, s.consumers[t]))
    && (forall i :: 0 <= i < |units| ==> UnitOk(s, units, i))
  }

  // ----- Counting lemmas -----

  /** Units are either given back or kept. */
  lemma {:induction false} KeptOrReturned(units: seq<Unit>)
    ensures Sum(IsKept(), units) + Sum(IsReturned(), units) == |units|
  {
    if units != [] { KeptOrReturned(units[1..]); }
  }

  lemma {:induction false} OpenOrClosed(units: seq<Unit>)
    requires forall i :: 0 <= i < |units| ==> units[i].Taken? || units[i].Returned?
    ensures Sum(IsTaken(), units) + Sum(IsReturned(), units) == |units|
  {
    if units != [] {
      assert forall i :: 0 <= i < |units[1..]| ==> units[1..][i] == units[i + 1];
      OpenOrClosed(units[1..]);
    }
  }

  /** Giving units back or granting them never raises an effective count. */
  lemma KeptMono(units: seq<Unit>, after: seq<Unit>, k: nat)
    requires k <= |units| && |units| <= |after|
    requires forall i :: 0 <= i < k ==> units[i].Returned? ==> after[i].Returned?
    ensures Kept(after, k) <= Kept(units, k)
  {
    SumMono(IsKept(), after[..k], units[..k]);
  }

  /** One more unit raises the effective count by at most one. */
  lemma KeptStep(units: seq<Unit>, a: nat, b: nat)
    requires a + b <= |units|
    ensures Kept(units, a + b) <= Kept(units, a) + b
  {
    assert units[..a + b] == units[..a] + units[a..a + b];
    SumAppend(IsKept(), units[..a], units[a..a + b]);
    SumAtMostLength(IsKept(), units[a..a + b]);
  }

  /** The heart of the argument: if every granted or taken unit had an effective count within the tail,
      then all granted and taken units together fit under the tail. */
  lemma {:induction false} GrantsFit(units: seq<Unit>, tail: nat)
    requires forall i :: 0 <= i < |units| && (units[i].Granted? || units[i].Taken?) ==> Fits(units, i, tail)
    ensures Sum(IsGrantedOrTaken(), units) <= tail
  {
    if units != [] {
      var k := |units| - 1;
      var front := units[..k];
      assert units == front + [units[k]];
      SumAppend(IsGrantedOrTaken(), front, [units[k]]);
      if units[k].Granted? || units[k].Taken? {
        assert Fits(units, k, tail) && units[..k + 1] == units;
        GrantedAreKept(units);
      } else {
        forall i | 0 <= i < |front| && (front[i].Granted? || front[i].Taken?) ensures Fits(front, i, tail) {
          assert Fits(units, i, tail) && front[..i + 1] == units[..i + 1];
        }
        GrantsFit(front, tail);
      }
    }
  }

  lemma {:induction false} GrantedAreKept(units: seq<Unit>)
    ensures Sum(IsTaken(), units) <= Sum(IsGrantedOrTaken(), units) <= Sum(IsKept(), units)
  {
    if units != [] { GrantedAreKept(units[1..]); }
  }

  // ----- Preservation -----

  /** Steps that touch no unit: t moves between points that hold nothing, or the enqueuer advances. */
  lemma PreserveQuiet<T>(s: State<T>, s': State<T>, units: seq<Unit>, t: nat)
    requires Inv(s, units) && |s'.consumers| == |s.consumers|
    requires s'.dequeueOptimisticCount == s.dequeueOptimisticCount && s'.dequeueOvercommit == s.dequeueOvercommit
    requires s'.headIndex == s.headIndex && s'.claims == s.claims
    requires s.tailIndex <= s'.tailIndex <= |s'.written|
    requires forall u :: 0 <= u < |s.consumers| && u != t ==> s'.consumers[u] == s.consumers[u]
    requires t < |s.consumers| ==> PcOk(s', units, t, s'.consumers[t])
    requires t < |s.consumers| ==>
      forall i: nat, g :: Holds(s.consumers[t], i, g) ==> Holds(s'.consumers[t], i, g)
    ensures Inv(s', units)
  {
    forall u | 0 <= u < |s'.consumers| ensures PcOk(s', units, u, s'.consumers[u]) {
      if u != t { assert PcOk(s, units, u, s.consumers[u]); }
    }
    forall i | 0 <= i < |units| ensures UnitOk(s', units, i) { assert UnitOk(s, units, i); }
  }

  /** The other consumers' intervals and bounds survive when units of t change, or units are appended. */
  lemma OthersOk<T>(s: State<T>, s': State<T>, units: seq<Unit>, units': seq<Unit>, t: nat, u: nat)
    requires u < |s.consumers| && u != t && PcOk(s, units, u, s.consumers[u])
    requires s.dequeueOvercommit <= s'.dequeueOvercommit && |units| <= |units'|
    requires forall i ::
               0 <= i < |units| && (units[i] == Pending(u) || units[i] == Granted(u)) ==> units'[i] == units[i]
    requires forall i :: 0 <= i < |units| && units[i].Returned? ==> units'[i].Returned?
    ensures PcOk(s', units', u, s.consumers[u])
  {
    if s.consumers[u].Recheck? { KeptMono(units, units', s.consumers[u].my); }
  }

  /** The fetch_add on dequeueOptimisticCount draws the next units. */
  lemma PreserveAdd<T>(s: State<T>, units: seq<Unit>, t: nat) returns (units': seq<Unit>)
    requires Inv(s, units) && t < |s.consumers| && s.consumers[t].AddOptimistic?
    ensures Inv(Execute(s, t), units')
  {
    var pc, s' := s.consumers[t], Execute(s, t);
    var drawn := seq(pc.desired, _ => Pending(t));
    units' := units + drawn;
    assert PcOk(s, units, t, pc);
    SumAppend(IsReturned(), units, drawn);
    SumAppend(IsTaken(), units, drawn);
    SumZero(IsReturned(), drawn);
    SumZero(IsTaken(), drawn);
    forall u | 0 <= u < |s'.consumers| ensures PcOk(s', units', u, s'.consumers[u]) {
      if u != t {
        OthersOk(s, s', units, units', t, u);
      } else {
        KeptOrReturned(units);
        assert units'[..|units|] == units;
      }
    }
    forall i | 0 <= i < |units'| ensures UnitOk(s', units', i) {
      if i < |units| {
        assert UnitOk(s, units, i) && units'[..i + 1] == units[..i + 1];
      }
    }
  }

  /** Units of t in [lo, lo + n) change from `was` to `now`; everything else follows. */
  lemma PreserveMark<T>(s: State<T>, s': State<T>, units: seq<Unit>, t: nat, lo: nat, n: nat, was: Unit, now: Unit)
    requires Inv(s, units) && t < |s.consumers| == |s'.consumers| && s'.consumers == s.consumers[t := s'.consumers[t]]
    requires s'.written == s.written && s'.tailIndex == s.tailIndex
    requires s'.dequeueOptimisticCount == s.dequeueOptimisticCount
    requires s.dequeueOvercommit <= s'.dequeueOvercommit
    requires lo + n <= |units| && forall i :: lo <= i < lo + n ==> units[i] == was
    requires was == Pending(t) || was == Granted(t)
    requires Sum(IsReturned(), Mark(units, lo, n, now)) == s'.dequeueOvercommit
    requires Sum(IsTaken(), Mark(units, lo, n, now)) == s'.headIndex && Tiled(s'.claims, s'.headIndex)
    requires PcOk(s', Mark(units, lo, n, now), t, s'.consumers[t])
    requires now == Granted(t) || now.Taken? || now.Returned?
    requires now.Granted? ==> forall i :: lo <= i < lo + n ==> Holds(s'.consumers[t], i, true)
    requires forall i: nat, g :: Holds(s.consumers[t], i, g) && !(lo <= i < lo + n) ==> Holds(s'.consumers[t], i, g)
    requires !now.Returned? ==> forall i :: lo <= i < lo + n ==> Fits(Mark(units, lo, n, now), i, s.tailIndex)
    ensures Inv(s', Mark(units, lo, n, now))
  {
    var units' := Mark(units, lo, n, now);
    forall u | 0 <= u < |s'.consumers| ensures PcOk(s', units', u, s'.consumers[u]) {
      if u != t { OthersOk(s, s', units, units', t, u); }
    }
    forall i | 0 <= i < |units'| ensures UnitOk(s', units', i) {
      assert UnitOk(s, units, i);
      if !(lo <= i < lo + n) { KeptMono(units, units', i + 1); }
    }
  }

  lemma PreserveRecheck<T>(s: State<T>, units: seq<Unit>, t: nat) returns (units': seq<Unit>)
    requires Inv(s, units) && t < |s.consumers| && s.consumers[t].Recheck?
    ensures Inv(Execute(s, t), units')
  {
    var pc, s' := s.consumers[t], Execute(s, t);
    assert PcOk(s, units, t, pc);
    var room := s.tailIndex - (pc.my - pc.over);
    if room <= 0 {
      units' := units;
      PreserveQuiet(s, s', units, t);
    } else {
      var n := Min(room, pc.desired);
      units' := Mark(units, pc.my, n, Granted(t));
      GrantSums(units, t, pc.my, n);
      GrantsFitTail(units, pc.my, n, Granted(t), pc.over, s.tailIndex);
      PreserveMark(s, s', units, t, pc.my, n, Pending(t), Granted(t));
    }
  }

  lemma GrantSums(units: seq<Unit>, t: nat, lo: nat, n: nat)
    requires AllPending(units, t, lo, n)
    ensures Sum(IsReturned(), Mark(units, lo, n, Granted(t))) == Sum(IsReturned(), units)
    ensures Sum(IsTaken(), Mark(units, lo, n, Granted(t))) == Sum(IsTaken(), units)
  {
    SumMark(IsReturned(), units, lo, n, Granted(t), 0);
    SumMark(IsTaken(), units, lo, n, Granted(t), 0);
  }

  /** The second check of the tail covers every unit it grants. */
  lemma GrantsFitTail(units: seq<Unit>, lo: nat, n: nat, now: Unit, over: nat, tail: nat)
    requires lo + n <= |units| && over + Kept(units, lo) <= lo && lo + n - over <= tail
    ensures forall i :: lo <= i < lo + n ==> Fits(Mark(units, lo, n, now), i, tail)
  {
    var units' := Mark(units, lo, n, now);
    assert units'[..lo] == units[..lo];
    forall i | lo <= i < lo + n ensures Fits(units', i, tail) {
      KeptStep(units', lo, i + 1 - lo);
    }
  }

  lemma PreserveReturn<T>(s: State<T>, units: seq<Unit>, t: nat) returns (units': seq<Unit>)
    requires Inv(s, units) && t < |s.consumers| && (s.consumers[t].Settle? || s.consumers[t].GiveBack?)
    ensures Inv(Execute(s, t), units')
  {
    var pc, s' := s.consumers[t], Execute(s, t);
    assert PcOk(s, units, t, pc);
    var lo, n := if pc.Settle? then pc.my + pc.actual else pc.my, if pc.Settle? then pc.excess else pc.desired;
    units' := Mark(units, lo, n, Returned);
    ReturnSums(units, t, lo, n);
    PreserveMark(s, s', units, t, lo, n, Pending(t), Returned);
  }

  lemma ReturnSums(units: seq<Unit>, t: nat, lo: nat, n: nat)
    requires AllPending(units, t, lo, n)
    ensures Sum(IsReturned(), Mark(units, lo, n, Returned)) == Sum(IsReturned(), units) + n
    ensures Sum(IsTaken(), Mark(units, lo, n, Returned)) == Sum(IsTaken(), units)
  {
    SumMark(IsReturned(), units, lo, n, Returned, 0);
    SumMark(IsTaken(), units, lo, n, Returned, 0);
  }

  lemma PreserveTake<T>(s: State<T>, units: seq<Unit>, t: nat) returns (units': seq<Unit>)
    requires Inv(s, units) && t < |s.consumers| && s.consumers[t].TakeHead?
    ensures Inv(Execute(s, t), units')
  {
    var pc, s' := s.consumers[t], Execute(s, t);
    assert PcOk(s, units, t, pc);
    units' := Mark(units, pc.my, pc.actual, Taken);
    TakeSums(units, t, pc.my, pc.actual);
    TakenStillFit(s, units, t, pc.my, pc.actual);
    TileNext(s.claims, s.headIndex, Claim(t, s.headIndex, pc.actual));
    PreserveMark(s, s', units, t, pc.my, pc.actual, Granted(t), Taken);
  }

  lemma TakeSums(units: seq<Unit>, t: nat, lo: nat, n: nat)
    requires AllGranted(units, t, lo, n)
    ensures Sum(IsReturned(), Mark(units, lo, n, Taken)) == Sum(IsReturned(), units)
    ensures Sum(IsTaken(), Mark(units, lo, n, Taken)) == Sum(IsTaken(), units) + n
  {
    SumMark(IsReturned(), units, lo, n, Taken, 0);
    SumMark(IsTaken(), units, lo, n, Taken, 0);
  }

  lemma TakenStillFit<T>(s: State<T>, units: seq<Unit>, t: nat, lo: nat, n: nat)
    requires AllGranted(units, t, lo, n) && forall i :: 0 <= i < |units| ==> UnitOk(s, units, i)
    ensures forall i :: lo <= i < lo + n ==> Fits(Mark(units, lo, n, Taken), i, s.tailIndex)
  {
    var units' := Mark(units, lo, n, Taken);
    forall i | lo <= i < lo + n ensures Fits(units', i, s.tailIndex) {
      assert UnitOk(s, units, i);
      KeptMono(units, units', i + 1);
    }
  }

  lemma TileNext(claims: seq<Claim>, head: nat, c: Claim)
    requires Tiled(claims, head) && c.first == head
    ensures Tiled(claims + [c], head + c.count)
  {
    assert (claims + [c])[..|claims|] == claims;
  }

  lemma PreserveStep<T>(s: State<T>, units: seq<Unit>, a: Action<T>) returns (units': seq<Unit>)
    requires Inv(s, units) && Enabled(s, a)
    ensures Inv(Step(s, a), units')
  {
    units' := units;
    match a
    case Write(_) => PreserveQuiet(s, Step(s, a), units, |s.consumers|);
    case Publish => PreserveQuiet(s, Step(s, a), units, |s.consumers|);
    case Call(t, _) => PreserveQuiet(s, Step(s, a), units, t);
    case Run(t) =>
      assert PcOk(s, units, t, s.consumers[t]);
      match s.consumers[t] {
        case LoadOvercommit(_, _) => PreserveQuiet(s, Step(s, a), units, t);
        case LoadOptimistic(_, _, _) => PreserveQuiet(s, Step(s, a), units, t);
        case AddOptimistic(_, _) => units' := PreserveAdd(s, units, t);
        case Recheck(_, _, _) => units' := PreserveRecheck(s, units, t);
        case Settle(_, _, _) => units' := PreserveReturn(s, units, t);
        case GiveBack(_, _) => units' := PreserveReturn(s, units, t);
        case TakeHead(_, _) => units' := PreserveTake(s, units, t);
      }
  }

  // ----- Every run -----

  ghost predicate Init<T>(s: State<T>) {
    && s.written == [] && s.claims == []
    && s.tailIndex == 0 && s.headIndex == 0 && s.dequeueOptimisticCount == 0 && s.dequeueOvercommit == 0
    && forall t :: 0 <= t < |s.consumers| ==> s.consumers[t] == Idle
  }

  ghost predicate Follows<T>(p: State<T>, a: Action<T>, s: State<T>) {
    Enabled(p, a) && s == Step(p, a)
  }

  ghost predicate Reaches<T(!new)>(run: Trace<Action<T>>, s: State<T>) {
    match run
    case Start => Init(s)
    case Then(before, a) => exists p :: Reaches(before, p) && Follows(p, a, s)
  }

  ghost predicate Reachable<T(!new)>(s: State<T>) {
    exists run: Trace<Action<T>> :: Reaches(run, s)
  }

  lemma {:induction false} RunInv<T(!new)>(run: Trace<Action<T>>, s: State<T>) returns (units: seq<Unit>)
    requires Reaches(run, s)
    ensures Inv(s, units)
  {
    match run
    case Start => units := [];
    case Then(before, a) =>
      var p :| Reaches(before, p) && Follows(p, a, s);
      var earlier := RunInv(before, p);
      units := PreserveStep(p, earlier, a);
  }

  lemma ReachableInv<T(!new)>(s: State<T>) returns (units: seq<Unit>)
    requires Reachable(s)
    ensures Inv(s, units)
  {
    var run :| Reaches(run, s);
    units := RunInv(run, s);
  }

  /** No consumer is ever let past the tail: what is taken from headIndex, also by a step about to happen,
      stays within the elements that were constructed and published. */
  lemma NeverOvertakes<T(!new)>(s: State<T>, t: nat)
    requires Reachable(s)
    ensures s.headIndex <= s.tailIndex <= |s.written|
    ensures t < |s.consumers| && s.consumers[t].TakeHead? ==> s.headIndex + s.consumers[t].actual <= s.tailIndex
  {
    var units := ReachableInv(s);
    HeadWithinTail(s, units);
    if t < |s.consumers| && s.consumers[t].TakeHead? {
      var units' := PreserveTake(s, units, t);
      HeadWithinTail(Execute(s, t), units');
    }
  }

  lemma HeadWithinTail<T>(s: State<T>, units: seq<Unit>)
    requires Inv(s, units)
    ensures s.headIndex <= s.tailIndex
  {
    forall i | 0 <= i < |units| && (units[i].Granted? || units[i].Taken?) ensures Fits(units, i, s.tailIndex) {
      assert UnitOk(s, units, i);
    }
    GrantsFit(units, s.tailIndex);
    GrantedAreKept(units);
  }

  predicate Covers(c: Claim, k: nat) { c.first <= k < c.first + c.count }

  /** Every index below headIndex was claimed exactly once, and none above. */
  lemma EachIndexClaimedOnce<T(!new)>(s: State<T>, k: nat) returns (c: nat)
    requires Reachable(s) && k < s.headIndex
    ensures c < |s.claims| && Covers(s.claims[c], k) && k < |s.written|
    ensures forall d :: 0 <= d < |s.claims| && Covers(s.claims[d], k) ==> d == c
    ensures forall d :: 0 <= d < |s.claims| ==> s.claims[d].first + s.claims[d].count <= s.headIndex
  {
    var units := ReachableInv(s);
    NeverOvertakes(s, 0);
    c := TileOf(s.claims, s.headIndex, k);
    TilesBelow(s.claims, s.headIndex);
  }

  lemma {:induction false} TilesBelow(claims: seq<Claim>, head: nat)
    requires Tiled(claims, head)
    ensures forall d :: 0 <= d < |claims| ==> claims[d].first + claims[d].count <= head
    decreases |claims|
  {
    if claims != [] { TilesBelow(claims[..|claims| - 1], claims[|claims| - 1].first); }
  }

  lemma {:induction false} TileOf(claims: seq<Claim>, head: nat, k: nat) returns (c: nat)
    requires Tiled(claims, head) && k < head
    ensures c < |claims| && Covers(claims[c], k)
    ensures forall d :: 0 <= d < |claims| && Covers(claims[d], k) ==> d == c
    decreases |claims|
  {
    var last := |claims| - 1;
    TilesBelow(claims[..last], claims[last].first);
    if k < claims[last].first {
      c := TileOf(claims[..last], claims[last].first, k);
    } else {
      c := last;
    }
  }

  /** The elements delivered by the claims, in claim order. */
  ghost function Delivered<T>(claims: seq<Claim>, written: seq<T>): seq<T>
    decreases |claims|
  {
    if claims == [] then []
    else
      var last := claims[|claims| - 1];
      Delivered(claims[..|claims| - 1], written)
      + (if last.first + last.count <= |written| then written[last.first..last.first + last.count] else [])
  }

  /** Taken together the consumers receive exactly the elements below headIndex, each once, in order. */
  lemma DeliveredInOrder<T(!new)>(s: State<T>)
    requires Reachable(s)
    ensures s.headIndex <= |s.written| && Delivered(s.claims, s.written) == s.written[..s.headIndex]
  {
    var units := ReachableInv(s);
    NeverOvertakes(s, 0);
    DeliveredPrefix(s.claims, s.headIndex, s.written);
  }

  lemma {:induction false} DeliveredPrefix<T>(claims: seq<Claim>, head: nat, written: seq<T>)
    requires Tiled(claims, head) && head <= |written|
    ensures Delivered(claims, written) == written[..head]
    decreases |claims|
  {
    if claims != [] {
      DeliveredPrefix(claims[..|claims| - 1], claims[|claims| - 1].first, written);
    }
  }

  /** The assertion after the fetch_add: overcommit <= myDequeueCount. */
  lemma OvercommitBehind<T(!new)>(s: State<T>, t: nat)
    requires Reachable(s) && t < |s.consumers| && s.consumers[t].Recheck?
    ensures s.consumers[t].over <= s.consumers[t].my
  {
    var units := ReachableInv(s);
    assert PcOk(s, units, t, s.consumers[t]);
  }

  /** With no consumer inside a dequeue the counters balance, so the emptiness pre-check is exact. */
  lemma QuiescentExact<T(!new)>(s: State<T>)
    requires Reachable(s) && forall t :: 0 <= t < |s.consumers| ==> s.consumers[t].Idle?
    ensures s.dequeueOptimisticCount - s.dequeueOvercommit == s.headIndex
    ensures s.dequeueOptimisticCount - s.dequeueOvercommit < s.tailIndex <==> s.headIndex < s.tailIndex
  {
    var units := ReachableInv(s);
    forall i | 0 <= i < |units| ensures units[i].Taken? || units[i].Returned? { assert UnitOk(s, units, i); }
    OpenOrClosed(units);
  }

  ghost function RunAlone<T>(s: State<T>, t: nat, steps: nat): State<T>
    requires t < |s.consumers|
    ensures |RunAlone(s, t, steps).consumers| == |s.consumers|
    decreases steps
  {
    if steps == 0 || s.consumers[t].Idle? then s else RunAlone(Execute(s, t), t, steps - 1)
  }

  /** A dequeue that meets no other consumer takes as many elements as there are, up to max. */
  lemma DequeueAlone<T(!new)>(s: State<T>, t: nat, max: nat)
    requires Reachable(s) && forall u :: 0 <= u < |s.consumers| ==> s.consumers[u].Idle?
    requires t < |s.consumers|
    ensures s.headIndex <= s.tailIndex
    ensures var s' := RunAlone(Step(s, Call(t, max)), t, 5);
      && s'.consumers == s.consumers
      && s'.headIndex == s.headIndex + Min(s.tailIndex - s.headIndex, max)
  {
    QuiescentExact(s);
    NeverOvertakes(s, t);
    var s0 := Step(s, Call(t, max));
    var s1 := Execute(s0, t);
    var s2 := Execute(s1, t);
    assert s.consumers[t := Idle] == s.consumers;
    if s.headIndex < s.tailIndex {
      var s3 := Execute(s2, t);
      var s4 := Execute(s3, t);
      var s5 := Execute(s4, t);
      assert s5.consumers == s.consumers[t := Idle];
      assert RunAlone(s3, t, 2) == RunAlone(s4, t, 1) == s5;
      assert RunAlone(s1, t, 4) == RunAlone(s2, t, 3) == s5;
    } else {
      assert s2.consumers == s.consumers[t := Idle];
      assert RunAlone(s1, t, 4) == s2;
    }
  }

  // ----- Wrapped indices -----

  /** index_t is an unsigned 64-bit integer. */
  function Wrap(x: int): nat { x % WORD64 }

  function CircularLess(a: nat, b: nat): bool { Wrap(a - b) > HALF64 }

  /** circular_less_than on wrapped indices is the unbounded order exactly while the indices are less
      than half the range apart in one direction and at most half in the other. */
  lemma CircularAgrees(x: int, y: int)
    requires -WORD64 < x - y < WORD64
    ensures (CircularLess(Wrap(x), Wrap(y)) <==> x < y) <==> -HALF64 < x - y <= HALF64
  {
    WrapDifference(x, y);
  }

  lemma WrapDifference(x: int, y: int)
    ensures Wrap(Wrap(x) - Wrap(y)) == Wrap(x - y)
  {}

  /** The pre-check of a bulk dequeue as the source computes it, on wrapped words. */
  function SourceDesired(tail: nat, optimistic: nat, over: nat, max: nat): Option<nat> {
    var desired := Wrap(tail - Wrap(optimistic - over));
    if CircularLess(0, desired) then Some(Min(desired, max)) else None
  }

  /** The pre-check and the second check of a single dequeue, on wrapped words. */
  function SourceMayDequeue(tail: nat, optimistic: nat, over: nat): bool {
    CircularLess(Wrap(optimistic - over), tail)
  }

  /** For spans below half the index range the wrapped decisions are those of the machine above: the same
      amount desired, and the same amount granted after the second load of the tail. */
  lemma WrappedDecisionsAgree(tail: nat, optimistic: nat, over: nat, max: nat)
    requires -HALF64 < tail - (optimistic - over) < HALF64
    ensures var room := tail - (optimistic - over);
      && SourceDesired(Wrap(tail), Wrap(optimistic), Wrap(over), max)
         == (if room > 0 then Some(Min(room, max)) else None)
      && (SourceMayDequeue(Wrap(tail), Wrap(optimistic), Wrap(over)) <==> room > 0)
  {
    var effective := optimistic - over;
    WrapDifference(optimistic, over);
    assert Wrap(Wrap(tail) - Wrap(effective)) == Wrap(tail - effective) by { WrapDifference(tail, effective); }
    assert CircularLess(Wrap(effective), Wrap(tail)) <==> effective < tail by { CircularAgrees(effective, tail); }
    RoomSign(tail - effective);
  }

  /** circular_less_than(0, d) reads a wrapped difference as a signed one. */
  lemma RoomSign(room: int)
    requires -HALF64 < room < HALF64
    ensures CircularLess(0, Wrap(room)) <==> room > 0
    ensures room >= 0 ==> Wrap(room) == room
  {
    hide Wrap;
    if room > 0 {
      WrapIs(room, 0, room);
      WrapIs(-room, -1, WORD64 - room);
    } else if room == 0 {
      WrapIs(0, 0, 0);
    } else {
      WrapIs(room, -1, room + WORD64);
      WrapIs(-(room + WORD64), -1, -room);
    }
  }

  lemma WrapIs(x: int, laps: int, r: nat)
    requires x == r + laps * WORD64 && r < WORD64 && -1 <= laps <= 0
    ensures Wrap(x) == r
  {}
}
