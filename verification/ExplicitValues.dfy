/** What the consumers of the explicit producer of concurrentqueue.h take: the machine of ExplicitRace with the
    elements in the slots. The producer constructs its elements one by one between entering their blocks and moving
    the tail; a consumer that holds its block moves its element out and then flags the slot. */
module ExplicitValues {
  import opened Prelude
  import opened CircularIndex
  import opened ElementStore
  import R = ExplicitRace

  datatype State<!T> = State(race: R.State, st: Store<T>)

  datatype Action<!T> = Put(v: T) | Get(x: nat) | Race(a: R.Action)

  /** The producer does nothing else between constructing the first element of an operation and moving the tail. */
  ghost predicate RaceEnabled<T>(s: State<T>, a: R.Action) {
    match a
    case Claim => true
    case LoadIndex(_) => true
    case LoadFront(_) => true
    case LoadBase(_) => true
    case LoadBlock(_) => true
    case Take(x) => x in s.st.got
    case Publish(t) => t == |s.st.elems|
    case _ => |s.st.elems| == s.race.tail
  }

  ghost predicate Follows<T>(p: State<T>, a: Action<T>, s: State<T>) {
    match a
    case Put(v) =>
      && p.race.producer.Quiet? && |p.race.homes| == p.race.exposed && |p.st.elems| < 32 * p.race.exposed
      && s == p.(st := Construct(p.st, p.race.homes[|p.st.elems| / 32], v))
    case Get(x) =>
      && x in p.race.claims && p.race.claims[x].Holding? && x !in p.st.got
      && Place(p.race.claims[x].b, x % 32) in p.st.slots && s == p.(st := MoveOut(p.st, p.race.claims[x].b, x))
    case Race(a) => RaceEnabled(p, a) && s.st == p.st && R.Sound(p.race, a) && R.Follows(p.race, a, s.race)
  }

  ghost predicate Reaches<T(!new)>(run: Trace<Action<T>>, s: State<T>) {
    match run
    case Start => s.st == Store(map[], [], map[]) && R.Reaches(Start, s.race)
    case Then(before, a) => exists p :: Reaches(before, p) && Follows(p, a, s)
  }

  ghost predicate Reachable<T(!new)>(s: State<T>) { exists run :: Reaches(run, s) }

  // ----- The invariant -----

  /** The blocks that may hold elements. */
  ghost function Homes(r: R.State): map<nat, nat> { map n: nat | r.low <= n < |r.homes| :: r.homes[n] }

  ghost predicate StoreInv<T>(s: State<T>) {
    && Holds(s.st, Homes(s.race)) && s.race.tail <= |s.st.elems| <= 32 * |s.race.homes|
    && (|s.st.elems| > s.race.tail ==> s.race.producer.Quiet? && |s.race.homes| == s.race.exposed)
    && (forall x :: x in s.race.done ==> x in s.st.got)
    && (forall x :: x in s.st.got ==> x in s.race.done || (x in s.race.claims && s.race.claims[x].Holding?))
  }

  ghost predicate Inv<T>(s: State<T>, kept: nat) { R.Inv(s.race, kept) && R.Counted(s.race, 0) && StoreInv(s) }

  lemma HomesApart(r: R.State)
    requires R.RingInv(r)
    ensures Apart(Homes(r))
  {
    forall n, m | n in Homes(r) && m in Homes(r) && n != m ensures Homes(r)[n] != Homes(r)[m] {
      if n < m { assert r.homes[n] != r.homes[m]; } else { assert r.homes[m] != r.homes[n]; }
    }
  }

  lemma PreservePut<T>(p: State<T>, kept: nat, v: T, s: State<T>)
    requires Inv(p, kept) && Follows(p, Put(v), s)
    ensures StoreInv(s)
  {
    hide R.AllOnTrack;
    HomesApart(p.race);
    assert |p.st.elems| / 32 < kept ==> |p.st.elems| in p.race.done;
    ConstructHolds(p.st, Homes(p.race), v);
  }

  lemma PreserveGet<T>(p: State<T>, kept: nat, x: nat, s: State<T>)
    requires Inv(p, kept) && Follows(p, Get(x), s)
    ensures StoreInv(s) && s.st.got == p.st.got[x := p.st.elems[x]]
  {
    HeldHome(p.race, kept, x);
    hide R.IndexInv;
    HomesApart(p.race);
    MoveOutHolds(p.st, Homes(p.race), x);
  }

  /** A consumer holds the block of its element. */
  lemma HeldHome(r: R.State, kept: nat, x: nat)
    requires R.Inv(r, kept) && x in r.claims && r.claims[x].Holding?
    ensures x / 32 in Homes(r) && Homes(r)[x / 32] == r.claims[x].b
  {
    R.LiveBlock(r, kept, x);
    assert R.OnTrack(r.claims[x], x, r.headers, r.marks, R.Shown(r));
  }

  lemma PreserveRace<T>(p: State<T>, kept: nat, a: R.Action, s: State<T>, kept': nat)
    requires Inv(p, kept) && Follows(p, Race(a), s) && R.Inv(s.race, kept')
    ensures StoreInv(s)
  {
    hide R.Inv, Holds, R.Follows;
    forall x: nat | x < |p.st.elems| && x !in p.st.got && x / 32 in Homes(p.race)
      ensures x / 32 in Homes(s.race) && Homes(s.race)[x / 32] == Homes(p.race)[x / 32]
    {
      KeepsHome(p, kept, a, s, kept', x);
    }
    HomesChange(p.st, Homes(p.race), Homes(s.race));
    KeepsCounts(p, kept, a, s, kept');
  }

  /** The block of an element that is still there stays its block. */
  lemma KeepsHome<T>(p: State<T>, kept: nat, a: R.Action, s: State<T>, kept': nat, x: nat)
    requires Inv(p, kept) && Follows(p, Race(a), s) && R.Inv(s.race, kept')
    requires x < |p.st.elems| && x !in p.st.got && x / 32 in Homes(p.race)
    ensures x / 32 in Homes(s.race) && Homes(s.race)[x / 32] == Homes(p.race)[x / 32]
  {
    hide R.Inv, Holds, R.Follows;
    KeepsHomes(p.race, a, s.race);
    Published(p, kept);
    LowKept(s.race, kept', x);
  }

  lemma Published<T>(p: State<T>, kept: nat)
    requires Inv(p, kept)
    ensures p.race.tail <= 32 * p.race.exposed && p.race.exposed <= |p.race.homes|
  {
    hide R.IndexInv, R.AllOnTrack, R.RingInv, Holds;
  }

  lemma KeepsCounts<T>(p: State<T>, kept: nat, a: R.Action, s: State<T>, kept': nat)
    requires Inv(p, kept) && Follows(p, Race(a), s) && R.Inv(s.race, kept') && Holds(s.st, Homes(s.race))
    ensures StoreInv(s)
  {
    hide R.IndexInv, R.AllOnTrack, R.RingInv, Holds, Homes;
  }

  lemma LowKept(r: R.State, kept: nat, x: nat)
    requires R.Inv(r, kept) && x !in r.done
    ensures r.low <= x / 32
  {
    hide R.AllOnTrack, R.RingInv;
  }

  /** A step enters at most one block, and gives up none but emptied ones and those of an operation that gives up. */
  lemma KeepsHomes(p: R.State, a: R.Action, s: R.State)
    requires R.Follows(p, a, s)
    ensures if a.Refuse? then s.homes <= p.homes && |s.homes| == p.exposed else p.homes <= s.homes
    ensures s.done == if a.Take? then p.done + {a.x} else p.done
  {}

  lemma PreserveStep<T>(p: State<T>, kept: nat, a: Action<T>, s: State<T>) returns (kept': nat)
    requires Inv(p, kept) && Follows(p, a, s)
    ensures Inv(s, kept')
  {
    kept' := kept;
    match a
    case Put(v) => PreservePut(p, kept, v, s);
    case Get(x) => PreserveGet(p, kept, x, s);
    case Race(a) =>
      hide R.Inv;
      kept' := R.PreserveStep(p.race, kept, a, s.race);
      PreserveRace(p, kept, a, s, kept');
  }

  lemma {:induction false} RunInv<T(!new)>(run: Trace<Action<T>>, s: State<T>) returns (kept: nat)
    requires Reaches(run, s)
    ensures Inv(s, kept)
  {
    match run
    case Start =>
      hide R.Inv;
      kept := R.RunInv(Start, s.race);
      StartInv(s, kept);
    case Then(before, a) =>
      hide Inv, Follows;
      var p :| Reaches(before, p) && Follows(p, a, s);
      var earlier := RunInv(before, p);
      kept := PreserveStep(p, earlier, a, s);
  }

  lemma StartInv<T>(s: State<T>, kept: nat)
    requires s.st == Store(map[], [], map[]) && R.Reaches(Start, s.race) && R.Inv(s.race, kept) && R.Counted(s.race, 0)
    ensures Inv(s, kept)
  {}

  // ----- What holds in every run -----

  /** What a consumer has moved out for its number is the element that was enqueued under it, and every number handed
      out whose consumer has finished has been served: elements are neither lost nor delivered twice nor swapped. */
  lemma EachElementOnce<T(!new)>(s: State<T>, x: nat)
    requires Reachable(s)
    ensures x in s.st.got ==> x < s.race.head <= s.race.tail <= |s.st.elems| && s.st.got[x] == s.st.elems[x]
    ensures x < s.race.head && x !in s.race.claims ==> x in s.st.got
  {
    var run :| Reaches(run, s);
    var kept := RunInv(run, s);
    hide R.IndexInv, R.AllOnTrack, R.RingInv;
  }

  /** A consumer that holds its block finds its element in the slot, and takes it once. */
  lemma FindsItsElement<T(!new)>(s: State<T>, x: nat)
    requires Reachable(s) && x in s.race.claims && s.race.claims[x].Holding? && x !in s.st.got
    ensures Place(s.race.claims[x].b, x % 32) in s.st.slots && x < |s.st.elems|
    ensures s.st.slots[Place(s.race.claims[x].b, x % 32)] == s.st.elems[x]
  {
    var run :| Reaches(run, s);
    var kept := RunInv(run, s);
    HeldHome(s.race, kept, x);
    hide R.IndexInv, R.AllOnTrack, R.RingInv;
    assert InPlace(s.st, Homes(s.race), x);
  }

  /** No step changes what was enqueued under a number, or what was delivered for it. */
  lemma NothingRewritten<T(!new)>(p: State<T>, a: Action<T>, s: State<T>)
    requires Reachable(p) && Follows(p, a, s)
    ensures s.st.elems == if a.Put? then p.st.elems + [a.v] else p.st.elems
    ensures forall x :: x in p.st.got ==> x in s.st.got && s.st.got[x] == p.st.got[x]
    ensures forall x :: x in s.st.got && x !in p.st.got ==> a == Get(x)
  {}
}
