/** The lightweight semaphore of blockingconcurrentqueue.h and the blocking queue built on it: any number of
    threads enqueue, signal, wait and dequeue. Each load, compare-exchange, fetch_add and kernel semaphore
    operation is one step. The queue inside is counted: how many items it holds. */
module BlockingQueue {
  import opened Prelude

  /** Attempts before a waiting thread decrements unconditionally. */
  const SPINS: nat := 10000

  /** Why a thread is in the compare-exchange loop of tryWaitMany: for a call that does not block, for the first
      attempt of one that does, or, with one permit in hand, to get more. */
  datatype Purpose = ToTry | ToWait | ToAdd

  /** Program points. `limit` is the number of permits the whole call may take at most. */
  datatype Pc =
    | Idle
    | Signal(n: nat)
    | Release(k: nat)
    | Load(purpose: Purpose, limit: nat)
    | Cas(purpose: Purpose, limit: nat, seen: int)
    | Spin(limit: nat, left: nat)
    | SpinCas(limit: nat, left: nat, seen: int)
    | FetchSub(limit: nat)
    | Blocked(limit: nat)
    | Taking(purpose: Purpose, limit: nat, got: nat, left: nat)

  /** `count` is m_count, `kernel` what the kernel semaphore holds, `items` what the queue inside holds. `initial`
      is what count and items were at first; `signalled` and `acquired` add up the permits passed to signal and
      obtained from the semaphore since. */
  datatype State = State(
    count: int, kernel: nat, items: nat, initial: nat, signalled: nat, acquired: nat, threads: seq<Pc>)

  datatype Action =
    | Enqueue(t: nat, n: nat)
    | Dequeue(t: nat, blocking: bool, max: nat)
    | Run(t: nat)
    | Fail(t: nat)
    | Take(t: nat, j: nat)

  predicate Enabled(s: State, a: Action) {
    && a.t < |s.threads|
    && match a
       case Enqueue(t, _) => s.threads[t].Idle?
       case Dequeue(t, _, _) => s.threads[t].Idle?
       case Run(t) => !s.threads[t].Idle? && !s.threads[t].Taking? && (s.threads[t].Blocked? ==> s.kernel > 0)
       case Fail(t) => s.threads[t].Cas?
       case Take(t, j) => s.threads[t].Taking? && j <= s.threads[t].left && j <= s.items
  }

  function Goto(s: State, t: nat, pc: Pc): State
    requires t < |s.threads|
  {
    s.(threads := s.threads[t := pc])
  }

  /** With `got` permits from the semaphore the call takes that many items. */
  function Acquire(s: State, t: nat, purpose: Purpose, limit: nat, got: nat): State
    requires t < |s.threads|
  {
    Goto(s, t, Taking(purpose, limit, got, got))
  }

  /** One permit has been obtained by waiting; a bulk call goes on to try for more. */
  function AcquireOne(s: State, t: nat, limit: nat): State
    requires t < |s.threads|
  {
    if limit > 1 then Goto(s, t, Load(ToAdd, limit)) else Acquire(s, t, ToWait, limit, 1)
  }

  /** How many permits tryWaitMany may take in this attempt. */
  function Room(purpose: Purpose, limit: nat): nat {
    if purpose == ToAdd then if limit == 0 then 0 else limit - 1 else limit
  }

  /** tryWaitMany got `n` permits, possibly none. */
  function Tried(s: State, t: nat, purpose: Purpose, limit: nat, n: nat): State
    requires t < |s.threads|
  {
    match purpose
    case ToTry => Acquire(s, t, ToTry, limit, n)
    case ToWait => if n == 0 && limit > 0 then Goto(s, t, Spin(limit, SPINS)) else Acquire(s, t, ToWait, limit, n)
    case ToAdd => Acquire(s, t, ToWait, limit, 1 + n)
  }

  function Step(s: State, a: Action): State
    requires Enabled(s, a)
  {
    match a
    case Enqueue(t, n) => Goto(s.(items := s.items + n), t, Signal(n))
    case Dequeue(t, blocking, max) => Goto(s, t, Load(if blocking then ToWait else ToTry, max))
    case Run(t) => Execute(s, t)
    case Fail(t) =>
      var pc := s.threads[t];
      if s.count > 0 then Goto(s, t, Cas(pc.purpose, pc.limit, s.count)) else Tried(s, t, pc.purpose, pc.limit, 0)
    case Take(t, j) =>
      var pc := s.threads[t];
      Goto(s.(items := s.items - j), t, if j == pc.left then Idle else pc.(left := pc.left - j))
  }

  function Execute(s: State, t: nat): State
    requires Enabled(s, Run(t))
  {
    match s.threads[t]
    case Signal(n) =>
      var toRelease := Min(-s.count, n);
      Goto(s.(count := s.count + n, signalled := s.signalled + n), t,
           if toRelease > 0 then Release(toRelease) else Idle)
    case Release(k) => Goto(s.(kernel := s.kernel + k), t, Idle)
    case Load(purpose, limit) =>
      if s.count > 0 then Goto(s, t, Cas(purpose, limit, s.count)) else Tried(s, t, purpose, limit, 0)
    case Cas(purpose, limit, seen) =>
      if s.count == seen && seen > 0 then
        var n := Min(seen, Room(purpose, limit));
        Tried(s.(count := seen - n, acquired := s.acquired + n), t, purpose, limit, n)
      else if s.count > 0 then Goto(s, t, Cas(purpose, limit, s.count)) else Tried(s, t, purpose, limit, 0)
    case Spin(limit, left) =>
      if left == 0 then Goto(s, t, FetchSub(limit))
      else if s.count > 0 then Goto(s, t, SpinCas(limit, left - 1, s.count))
      else Goto(s, t, Spin(limit, left - 1))
    case SpinCas(limit, left, seen) =>
      if s.count == seen && seen > 0 then
        var n := Min(seen, limit);
        Acquire(s.(count := seen - n, acquired := s.acquired + n), t, ToWait, limit, n)
      else Goto(s, t, Spin(limit, left))
    case FetchSub(limit) =>
      var s' := s.(count := s.count - 1);
      if s.count <= 0 then Goto(s', t, Blocked(limit)) else AcquireOne(s'.(acquired := s.acquired + 1), t, limit)
    case Blocked(limit) =>
      AcquireOne(s.(kernel := s.kernel - 1, acquired := s.acquired + 1), t, limit)
  }

  // ----- What each thread holds -----

  function WaitingIn(pc: Pc): nat { if pc.Blocked? then 1 else 0 }
  function PendingIn(pc: Pc): nat { if pc.Release? then pc.k else 0 }
  function UnsignalledIn(pc: Pc): nat { if pc.Signal? then pc.n else 0 }

  /** Permits obtained whose items have not been taken yet. */
  function HeldIn(pc: Pc): nat {
    match pc
    case Load(purpose, _) => if purpose == ToAdd then 1 else 0
    case Cas(purpose, _, _) => if purpose == ToAdd then 1 else 0
    case Taking(_, _, _, left) => left
    case _ => 0
  }

  ghost function WaitingOf(): Pc -> nat { pc => WaitingIn(pc) }
  ghost function PendingOf(): Pc -> nat { pc => PendingIn(pc) }
  ghost function UnsignalledOf(): Pc -> nat { pc => UnsignalledIn(pc) }
  ghost function HeldOf(): Pc -> nat { pc => HeldIn(pc) }

  ghost function Waiting(s: State): nat { Sum(WaitingOf(), s.threads) }
  ghost function Pending(s: State): nat { Sum(PendingOf(), s.threads) }
  ghost function Unsignalled(s: State): nat { Sum(UnsignalledOf(), s.threads) }
  ghost function Held(s: State): nat { Sum(HeldOf(), s.threads) }

  // ----- The invariant -----

  function Deficit(count: int): nat { if count < 0 then -count else 0 }

  /** Permits that have been signalled and not obtained. */
  function Outstanding(s: State): int { s.initial + s.signalled - s.acquired }

  ghost predicate PcOk(pc: Pc) {
    && (pc.Release? ==> pc.k > 0)
    && (pc.Load? || pc.Cas? ==> (pc.purpose == ToAdd ==> pc.limit > 1))
    && (pc.Cas? || pc.SpinCas? ==> pc.seen > 0)
    && (pc.Spin? || pc.SpinCas? || pc.FetchSub? || pc.Blocked? ==> pc.limit > 0)
    && (pc.Taking? ==>
          && pc.left <= pc.got <= pc.limit && pc.purpose != ToAdd
          && (pc.purpose == ToWait && pc.limit > 0 ==> pc.got > 0))
  }

  ghost predicate Inv(s: State) {
    && (forall t {:trigger PcOk(s.threads[t])} :: 0 <= t < |s.threads| ==> PcOk(s.threads[t]))
    && Waiting(s) == s.kernel + Pending(s) + Deficit(s.count)
    && Outstanding(s) == s.count + Waiting(s)
    && s.items == Unsignalled(s) + Held(s) + Outstanding(s)
  }

  /** A step of thread t changes each total by what the thread held before and after. */
  lemma Moved(s: State, s': State, t: nat, pc: Pc)
    requires t < |s.threads| && s'.threads == s.threads[t := pc]
    ensures Waiting(s') == Waiting(s) - WaitingIn(s.threads[t]) + WaitingIn(pc)
    ensures Pending(s') == Pending(s) - PendingIn(s.threads[t]) + PendingIn(pc)
    ensures Unsignalled(s') == Unsignalled(s) - UnsignalledIn(s.threads[t]) + UnsignalledIn(pc)
    ensures Held(s') == Held(s) - HeldIn(s.threads[t]) + HeldIn(pc)
  {
    SumUpdate(WaitingOf(), s.threads, t, pc);
    SumUpdate(PendingOf(), s.threads, t, pc);
    SumUpdate(UnsignalledOf(), s.threads, t, pc);
    SumUpdate(HeldOf(), s.threads, t, pc);
  }

  /** What a step changes for its thread balances. */
  ghost predicate Balanced(s: State, s': State, was: Pc, pc: Pc) {
    && WaitingIn(pc) - WaitingIn(was)
       == s'.kernel - s.kernel + PendingIn(pc) - PendingIn(was) + Deficit(s'.count) - Deficit(s.count)
    && Outstanding(s') - Outstanding(s) == s'.count - s.count + WaitingIn(pc) - WaitingIn(was)
    && s'.items - s.items
       == UnsignalledIn(pc) - UnsignalledIn(was) + HeldIn(pc) - HeldIn(was) + Outstanding(s') - Outstanding(s)
  }

  ghost predicate StepOk(s: State, s': State, t: nat) {
    && t < |s.threads| && |s'.threads| == |s.threads| && s'.threads == s.threads[t := s'.threads[t]]
    && PcOk(s'.threads[t]) && Balanced(s, s', s.threads[t], s'.threads[t])
  }

  lemma Compose(s: State, s': State, t: nat)
    requires Inv(s) && StepOk(s, s', t)
    ensures Inv(s')
  {
    Moved(s, s', t, s'.threads[t]);
    forall u | 0 <= u < |s'.threads| ensures PcOk(s'.threads[u]) {
      if u != t { assert PcOk(s.threads[u]); }
    }
  }

  lemma TryStep(s: State, t: nat)
    requires Enabled(s, Run(t)) && PcOk(s.threads[t]) && (s.threads[t].Load? || s.threads[t].Cas?)
    ensures StepOk(s, Execute(s, t), t)
  {}

  lemma SignalStep(s: State, t: nat)
    requires Enabled(s, Run(t)) && PcOk(s.threads[t]) && (s.threads[t].Signal? || s.threads[t].Release?)
    ensures StepOk(s, Execute(s, t), t)
  {}

  lemma WaitStep(s: State, t: nat)
    requires Enabled(s, Run(t)) && PcOk(s.threads[t])
    requires s.threads[t].Spin? || s.threads[t].SpinCas? || s.threads[t].FetchSub? || s.threads[t].Blocked?
    ensures StepOk(s, Execute(s, t), t)
  {}

  lemma CallStep(s: State, a: Action)
    requires Enabled(s, a) && PcOk(s.threads[a.t]) && !a.Run?
    ensures StepOk(s, Step(s, a), a.t)
  {}

  lemma PreserveStep(s: State, a: Action)
    requires Inv(s) && Enabled(s, a)
    ensures Inv(Step(s, a))
  {
    var pc := s.threads[a.t];
    assert PcOk(pc);
    if !a.Run? { CallStep(s, a); }
    else if pc.Load? || pc.Cas? { TryStep(s, a.t); }
    else if pc.Signal? || pc.Release? { SignalStep(s, a.t); }
    else { WaitStep(s, a.t); }
    Compose(s, Step(s, a), a.t);
  }

  // ----- Runs -----

  ghost predicate Init(s: State) {
    && s.count == s.initial == s.items && s.kernel == s.signalled == s.acquired == 0
    && forall t :: 0 <= t < |s.threads| ==> s.threads[t] == Idle
  }

  ghost predicate Follows(p: State, a: Action, s: State) {
    Enabled(p, a) && s == Step(p, a)
  }

  ghost predicate Reaches(run: Trace<Action>, s: State) {
    match run
    case Start => Init(s)
    case Then(before, a) => exists p :: Reaches(before, p) && Follows(p, a, s)
  }

  ghost predicate Reachable(s: State) {
    exists run :: Reaches(run, s)
  }

  lemma InitInv(s: State)
    requires Init(s)
    ensures Inv(s)
  {
    SumZero(WaitingOf(), s.threads);
    SumZero(PendingOf(), s.threads);
    SumZero(UnsignalledOf(), s.threads);
    SumZero(HeldOf(), s.threads);
  }

  lemma {:induction false} RunInv(run: Trace<Action>, s: State)
    requires Reaches(run, s)
    ensures Inv(s)
    decreases run
  {
    match run
    case Start => InitInv(s);
    case Then(before, a) =>
      var p :| Reaches(before, p) && Follows(p, a, s);
      RunInv(before, p);
      PreserveStep(p, a);
  }

  lemma ReachableInv(s: State)
    requires Reachable(s)
    ensures Inv(s)
  {
    var run :| Reaches(run, s);
    RunInv(run, s);
  }

  // ----- What holds in every reachable state -----

  /** The threads blocked on the kernel semaphore are matched by the permits it holds, the releases on their way,
      and the deficit of the count. */
  lemma WaitersMatched(s: State)
    requires Reachable(s)
    ensures Waiting(s) == s.kernel + Pending(s) + Deficit(s.count)
  {
    ReachableInv(s);
  }

  /** No more permits are obtained than there have been. */
  lemma NoPermitTwice(s: State)
    requires Reachable(s)
    ensures s.acquired <= s.initial + s.signalled
  {
    ReachableInv(s);
  }

  /** No wake-up is lost: if a thread stays blocked, with nothing in the kernel semaphore and no release on its
      way, then every permit there was has been obtained. */
  lemma NoLostWakeup(s: State, t: nat)
    requires Reachable(s) && t < |s.threads| && s.threads[t].Blocked? && s.kernel == 0 && Pending(s) == 0
    ensures s.acquired == s.initial + s.signalled && s.count < 0
  {
    ReachableInv(s);
    SumUpdate(WaitingOf(), s.threads, t, s.threads[t]);
  }

  /** A call that blocks returns between 1 and max permits, one that does not at most max. */
  lemma PermitsWithinMax(s: State, t: nat)
    requires Reachable(s) && t < |s.threads| && s.threads[t].Taking?
    ensures var pc := s.threads[t];
      pc.got <= pc.limit && (pc.purpose == ToWait && pc.limit > 0 ==> 1 <= pc.got)
  {
    ReachableInv(s);
    assert PcOk(s.threads[t]);
  }

  /** A consumer that has obtained permits always finds its items: the queue holds at least those it has still to
      take, on top of what every other consumer has still to take, so a retry loop can always go on and end. */
  lemma ReservedItemsThere(s: State, t: nat, j: nat)
    requires Reachable(s) && t < |s.threads| && s.threads[t].Taking? && j <= s.threads[t].left
    ensures s.threads[t].left <= Held(s) <= s.items && Enabled(s, Take(t, j))
  {
    ReachableInv(s);
    SumUpdate(HeldOf(), s.threads, t, s.threads[t]);
  }

  lemma {:induction false} NothingHeld(f: Pc -> nat, threads: seq<Pc>)
    requires forall pc: Pc :: pc.Idle? || pc.Blocked? ==> f(pc) == 0
    requires forall t :: 0 <= t < |threads| ==> threads[t].Idle? || threads[t].Blocked?
    ensures Sum(f, threads) == 0
  {
    SumZero(f, threads);
  }

  /** At rest, with every thread idle or blocked for good, threads are blocked only on an empty queue, and with no
      thread blocked the semaphore counts exactly the items. */
  lemma AtRest(s: State)
    requires Reachable(s) && s.kernel == 0
    requires forall t :: 0 <= t < |s.threads| ==> s.threads[t].Idle? || s.threads[t].Blocked?
    ensures Waiting(s) > 0 ==> s.items == 0
    ensures s.count == s.items - Waiting(s)
  {
    ReachableInv(s);
    NothingHeld(PendingOf(), s.threads);
    NothingHeld(UnsignalledOf(), s.threads);
    NothingHeld(HeldOf(), s.threads);
  }

  /** A thread can always go on, unless it is blocked and the kernel semaphore is empty. */
  lemma OnlyBlockedWait(s: State, t: nat)
    requires Reachable(s) && t < |s.threads| && !s.threads[t].Idle? && !(s.threads[t].Blocked? && s.kernel == 0)
    ensures Enabled(s, if s.threads[t].Taking? then Take(t, s.threads[t].left) else Run(t))
  {
    if s.threads[t].Taking? { ReservedItemsThere(s, t, s.threads[t].left); }
  }
}
