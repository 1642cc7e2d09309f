/** What the consumers of the implicit producer of concurrentqueue.h take: the machine of ImplicitRace with the
    elements in the slots. The producer constructs its elements one by one between starting their blocks and moving
    the tail; a consumer that holds its block moves its element out and then counts the slot. Blocks go back to the
    pool, and come out of it again for other numbers, all the while. */
module ImplicitValues {
  import opened Prelude
  import opened CircularIndex
  import opened ElementStore
  import R = ImplicitRace

  datatype State<!T> = State(race: R.State, st: Store<T>)

  datatype Action<!T> = Put(v: T) | Get(x: nat) | Race(a: R.Action)

  /** The producer does nothing else between constructing the first element of an operation and moving the tail. */
  ghost predicate RaceEnabled<T>(s: State<T>, a: R.Action) {
    match a
    case Claim => true
    case LoadIndex(_) => true
    case LoadTail(_) => true
    case LoadKey(_) => true
    case Locate(_) => true
    case LoadValue(_) => true
    case Empty(x) => x in s.st.got
    case ClearEntry(_) => true
    case Return(_) => true
    case Publish(t) => t == |s.st.elems|
    case _ => |s.st.elems| == s.race.tail
  }

  ghost predicate Follows<T>(p: State<T>, a: Action<T>, s: State<T>) {
    match a
    case Put(v) =>
      && p.race.producer.Quiet? && |p.st.elems| / 32 < p.race.v.next && |p.st.elems| / 32 in p.race.homes
      && s == p.(st := Construct(p.st, p.race.homes[|p.st.elems| / 32], v))
    case Get(x) =>
      && x in p.race.claims && p.race.claims[x].Holding? && x !in p.st.got
      && Place(p.race.claims[x].b, x % 32) in p.st.slots && s == p.(st := MoveOut(p.st, p.race.claims[x].b, x))
    case Race(a) => RaceEnabled(p, a) && s.st == p.st && R.Follows(p.race, a, s.race)
  }

  ghost predicate Reaches<T(!new)>(run: Trace<Action<T>>, s: State<T>) {
    match run
    case Start => s.st == Store(map[], [], map[]) && R.Reaches(Start, s.race)
    case Then(before, a) => exists p :: Reaches(before, p) && Follows(p, a, s)
  }

  ghost predicate Reachable<T(!new)>(s: State<T>) { exists run :: Reaches(run, s) }

  // ----- The invariant -----

  ghost predicate StoreInv<T>(s: State<T>) {
    && Holds(s.st, s.race.homes) && s.race.tail <= |s.st.elems|
    && (|s.st.elems| > s.race.tail ==> s.race.producer.Quiet? && |s.st.elems| <= 32 * s.race.v.next)
    && (forall x :: x in s.race.done ==> x in s.st.got)
    && (forall x :: x in s.st.got ==> x in s.race.done || (x in s.race.claims && s.race.claims[x].Holding?))
  }

  ghost predicate Inv<T>(s: State<T>) { R.Inv(s.race) && StoreInv(s) }

  lemma PreservePut<T>(p: State<T>, v: T, s: State<T>)
    requires Inv(p) && Follows(p, Put(v), s)
    ensures StoreInv(s)
  {
    hide R.IndexInv, R.ProducerInv, R.HomesInv, R.ClaimInv;
    ConstructHolds(p.st, p.race.homes, v);
  }

  lemma PreserveGet<T>(p: State<T>, x: nat, s: State<T>)
    requires Inv(p) && Follows(p, Get(x), s)
    ensures StoreInv(s) && s.st.got == p.st.got[x := p.st.elems[x]]
  {
    HeldHome(p.race, x);
    hide R.IndexInv, R.ProducerInv, R.HomesInv;
    MoveOutHolds(p.st, p.race.homes, x);
  }

  /** A consumer holds the block of its element. */
  lemma HeldHome(r: R.State, x: nat)
    requires R.Inv(r) && x in r.claims && r.claims[x].Holding?
    ensures x / 32 in r.homes && r.homes[x / 32] == r.claims[x].b
  {
    R.ClaimedInUse(r, x);
    assert R.Entitled(r.claims[x], x, r.v.nums, r.homes);
  }

  lemma PreserveRace<T>(p: State<T>, a: R.Action, s: State<T>)
    requires Inv(p) && Follows(p, Race(a), s) && R.Inv(s.race)
    ensures StoreInv(s)
  {
    hide R.Inv, Holds, R.Follows;
    forall x: nat | x < |p.st.elems| && x !in p.st.got && x / 32 in p.race.homes
      ensures x / 32 in s.race.homes && s.race.homes[x / 32] == p.race.homes[x / 32]
    {
      KeepsHome(p, a, s, x);
    }
    HomesChange(p.st, p.race.homes, s.race.homes);
    KeepsCounts(p, a, s);
  }

  /** The block of an element that is still there stays its block. */
  lemma KeepsHome<T>(p: State<T>, a: R.Action, s: State<T>, x: nat)
    requires Inv(p) && Follows(p, Race(a), s) && x < |p.st.elems| && x !in p.st.got && x / 32 in p.race.homes
    ensures x / 32 in s.race.homes && s.race.homes[x / 32] == p.race.homes[x / 32]
  {
    if R.ProducerEnabled(p.race, a) && s.race == R.ProducerStep(p.race, a) {
      ProducerKeeps(p.race, a, x);
    } else {
      ConsumerKeeps(p.race, a, x);
    }
  }

  lemma ProducerKeeps(p: R.State, a: R.Action, x: nat)
    requires R.Inv(p) && R.ProducerEnabled(p, a) && x / 32 in p.homes && (a.Publish? || x < p.tail)
    ensures x / 32 in R.ProducerStep(p, a).homes && R.ProducerStep(p, a).homes[x / 32] == p.homes[x / 32]
  {
    hide R.AllEntitled, DrainedBlock, R.PoolInv;
  }

  lemma ConsumerKeeps(p: R.State, a: R.Action, x: nat)
    requires R.Inv(p) && R.ConsumerEnabled(p, a) && x / 32 in p.homes && x !in p.done
    ensures x / 32 in R.ConsumerStep(p, a).homes && R.ConsumerStep(p, a).homes[x / 32] == p.homes[x / 32]
  {
    hide R.IndexInv, R.ProducerInv, R.PoolInv;
  }

  lemma KeepsCounts<T>(p: State<T>, a: R.Action, s: State<T>)
    requires Inv(p) && Follows(p, Race(a), s) && R.Inv(s.race) && Holds(s.st, s.race.homes)
    ensures StoreInv(s)
  {
    hide R.IndexInv, R.ProducerInv, R.PoolInv, R.HomesInv, DrainedBlock, Holds;
    if R.ProducerEnabled(p.race, a) && s.race == R.ProducerStep(p.race, a) {
      ProducerCounts(p, a, s);
    } else {
      ConsumerCounts(p, a, s);
    }
  }

  lemma ProducerCounts<T>(p: State<T>, a: R.Action, s: State<T>)
    requires StoreInv(p) && RaceEnabled(p, a) && R.ProducerEnabled(p.race, a) && s.race == R.ProducerStep(p.race, a)
    requires s.st == p.st && Holds(s.st, s.race.homes)
    ensures StoreInv(s)
  {
    hide Holds;
  }

  lemma ConsumerCounts<T>(p: State<T>, a: R.Action, s: State<T>)
    requires StoreInv(p) && RaceEnabled(p, a) && R.ConsumerEnabled(p.race, a) && s.race == R.ConsumerStep(p.race, a)
    requires s.st == p.st && Holds(s.st, s.race.homes)
    requires R.ClaimInv(p.race)
    ensures StoreInv(s)
  {
    hide Holds, DrainedBlock;
  }

  lemma PreserveStep<T>(p: State<T>, a: Action<T>, s: State<T>)
    requires Inv(p) && Follows(p, a, s)
    ensures Inv(s)
  {
    match a
    case Put(v) => PreservePut(p, v, s);
    case Get(x) => PreserveGet(p, x, s);
    case Race(a) =>
      hide R.Inv;
      R.PreserveStep(p.race, a, s.race);
      PreserveRace(p, a, s);
  }

  lemma {:induction false} RunInv<T(!new)>(run: Trace<Action<T>>, s: State<T>)
    requires Reaches(run, s)
    ensures Inv(s)
  {
    match run
    case Start =>
      hide R.Inv;
      R.RunInv(Start, s.race);
      StartInv(s);
    case Then(before, a) =>
      hide Inv, Follows;
      var p :| Reaches(before, p) && Follows(p, a, s);
      RunInv(before, p);
      PreserveStep(p, a, s);
  }

  lemma StartInv<T>(s: State<T>)
    requires s.st == Store(map[], [], map[]) && R.Reaches(Start, s.race) && R.Inv(s.race)
    ensures Inv(s)
  {}

  // ----- What holds in every run -----

  /** What a consumer has moved out for its number is the element that was enqueued under it, and every number handed
      out whose consumer has finished has been served: elements are neither lost nor delivered twice nor swapped. */
  lemma EachElementOnce<T(!new)>(s: State<T>, x: nat)
    requires Reachable(s)
    ensures x in s.st.got ==> x < s.race.head <= s.race.tail <= |s.st.elems| && s.st.got[x] == s.st.elems[x]
    ensures x < s.race.head && x !in s.race.claims ==> x in s.st.got
  {
    var run :| Reaches(run, s);
    RunInv(run, s);
    hide R.IndexInv, R.ProducerInv, R.HomesInv, R.PoolInv;
  }

  /** A consumer that holds its block finds its element in the slot, and takes it once. */
  lemma FindsItsElement<T(!new)>(s: State<T>, x: nat)
    requires Reachable(s) && x in s.race.claims && s.race.claims[x].Holding? && x !in s.st.got
    ensures Place(s.race.claims[x].b, x % 32) in s.st.slots && x < |s.st.elems|
    ensures s.st.slots[Place(s.race.claims[x].b, x % 32)] == s.st.elems[x]
  {
    var run :| Reaches(run, s);
    RunInv(run, s);
    HeldHome(s.race, x);
    hide R.IndexInv, R.ProducerInv, R.HomesInv, R.PoolInv;
    assert InPlace(s.st, s.race.homes, x);
  }

  /** No step changes what was enqueued under a number, or what was delivered for it. */
  lemma NothingRewritten<T(!new)>(p: State<T>, a: Action<T>, s: State<T>)
    requires Reachable(p) && Follows(p, a, s)
    ensures s.st.elems == if a.Put? then p.st.elems + [a.v] else p.st.elems
    ensures forall x :: x in p.st.got ==> x in s.st.got && s.st.got[x] == p.st.got[x]
    ensures forall x :: x in s.st.got && x !in p.st.got ==> a == Get(x)
  {}
}
