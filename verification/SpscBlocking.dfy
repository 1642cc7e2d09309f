/** BlockingReaderWriterQueue (readerwriterqueue.h) on the single-producer single-consumer semaphore of atomicops.h.
    Unlike the multi-consumer one, this semaphore tests its count and decrements it in two steps. The queue inside
    is the sequence of its items; that a dequeue finds an item whenever there is one when it starts is
    SpscQueue.NonEmptyCallSucceeds. */
module SpscBlocking {
  import opened Prelude

  const SPINS: nat := 10000

  datatype ProducerPc = Out | Signal | Release

  /** `waits` says whether the call blocks; Take is the dequeue or pop of the queue inside. */
  datatype ConsumerPc =
    | Away
    | Load(waits: bool)
    | Decrement
    | Spin(left: nat)
    | FetchSub
    | Blocked
    | Take

  /** sent and received log what was enqueued and dequeued; `missed` counts dequeues that found no item. */
  datatype State<T> = State(
    count: int, kernel: nat, items: seq<T>, producer: ProducerPc, consumer: ConsumerPc,
    sent: seq<T>, received: seq<T>, missed: nat)

  datatype Action<T> = Enqueue(x: T) | Produce | Dequeue(waits: bool) | Consume

  predicate Enabled<T>(s: State<T>, a: Action<T>) {
    match a
    case Enqueue(_) => s.producer.Out?
    case Produce => !s.producer.Out?
    case Dequeue(_) => s.consumer.Away?
    case Consume => !s.consumer.Away? && (s.consumer.Blocked? ==> s.kernel > 0)
  }

  function Step<T>(s: State<T>, a: Action<T>): State<T>
    requires Enabled(s, a)
  {
    match a
    case Enqueue(x) => s.(items := s.items + [x], sent := s.sent + [x], producer := Signal)
    case Produce =>
      if s.producer.Signal? then s.(count := s.count + 1, producer := if s.count < 0 then Release else Out)
      else s.(kernel := s.kernel + 1, producer := Out)
    case Dequeue(waits) => s.(consumer := Load(waits))
    case Consume => Consumed(s)
  }

  function Consumed<T>(s: State<T>): State<T>
    requires Enabled(s, Consume)
  {
    match s.consumer
    case Load(waits) =>
      s.(consumer := if s.count > 0 then Decrement else if waits then Spin(SPINS) else Away)
    case Decrement => s.(count := s.count - 1, consumer := Take)
    case Spin(left) =>
      s.(consumer := if left == 0 then FetchSub else if s.count > 0 then Decrement else Spin(left - 1))
    case FetchSub => s.(count := s.count - 1, consumer := if s.count <= 0 then Blocked else Take)
    case Blocked => s.(kernel := s.kernel - 1, consumer := Take)
    case Take =>
      if s.items == [] then s.(missed := s.missed + 1, consumer := Away)
      else s.(items := s.items[1..], received := s.received + [s.items[0]], consumer := Away)
  }

  // ----- The invariant -----

  function Unsignalled(p: ProducerPc): nat { if p.Signal? then 1 else 0 }
  function Pending(p: ProducerPc): nat { if p.Release? then 1 else 0 }
  function Waiting(c: ConsumerPc): nat { if c.Blocked? then 1 else 0 }
  function Reserved(c: ConsumerPc): nat { if c.Take? then 1 else 0 }

  ghost predicate Inv<T>(s: State<T>) {
    && s.sent == s.received + s.items && s.missed == 0
    && |s.items| == s.count + Waiting(s.consumer) + Reserved(s.consumer) + Unsignalled(s.producer)
    && Waiting(s.consumer) == s.kernel + Pending(s.producer) + (if s.count < 0 then -s.count else 0)
    && (s.consumer.Decrement? ==> s.count > 0)
  }

  lemma PreserveStep<T>(s: State<T>, a: Action<T>)
    requires Inv(s) && Enabled(s, a)
    ensures Inv(Step(s, a))
  {
    if a.Consume? && s.consumer.Take? {
      assert s.received + s.items == s.received + [s.items[0]] + s.items[1..];
    }
  }

  // ----- Runs -----

  ghost predicate Init<T>(s: State<T>) {
    s == State(0, 0, [], Out, Away, [], [], 0)
  }

  ghost predicate Follows<T>(p: State<T>, a: Action<T>, s: State<T>) {
    Enabled(p, a) && s == Step(p, a)
  }

  ghost predicate Reaches<T(!new)>(run: Trace<Action<T>>, s: State<T>) {
    match run
    case Start => Init(s)
    case Then(before, a) => exists p :: Reaches(before, p) && Follows(p, a, s)
  }

  ghost predicate Reachable<T(!new)>(s: State<T>) {
    exists run :: Reaches(run, s)
  }

  lemma {:induction false} RunInv<T(!new)>(run: Trace<Action<T>>, s: State<T>)
    requires Reaches(run, s)
    ensures Inv(s)
    decreases run
  {
    match run
    case Start =>
    case Then(before, a) =>
      var p :| Reaches(before, p) && Follows(p, a, s);
      RunInv(before, p);
      PreserveStep(p, a);
  }

  lemma ReachableInv<T(!new)>(s: State<T>)
    requires Reachable(s)
    ensures Inv(s)
  {
    var run :| Reaches(run, s);
    RunInv(run, s);
  }

  // ----- What holds in every reachable state -----

  /** The assertion after tryWait and wait: a permit always comes with an item. */
  lemma DequeueSucceeds<T(!new)>(s: State<T>)
    requires Reachable(s)
    ensures s.consumer.Take? ==> s.items != []
    ensures s.missed == 0
  {
    ReachableInv(s);
  }

  /** The assertion in signal: the count is never below -1, and it is -1 only while the consumer is blocked. */
  lemma CountAtLeastMinusOne<T(!new)>(s: State<T>)
    requires Reachable(s)
    ensures s.count >= -1
    ensures s.count == -1 ==> s.consumer.Blocked? && s.kernel == 0 && !s.producer.Release?
  {
    ReachableInv(s);
  }

  /** What is received is what was sent, in order. */
  lemma FirstInFirstOut<T(!new)>(s: State<T>)
    requires Reachable(s)
    ensures s.received <= s.sent && s.sent == s.received + s.items
  {
    ReachableInv(s);
  }

  /** The consumer stays blocked only while the queue is empty and the producer is not in a call. */
  lemma BlockedOnlyWhenEmpty<T(!new)>(s: State<T>)
    requires Reachable(s) && s.consumer.Blocked? && s.kernel == 0 && s.producer.Out?
    ensures s.items == [] && s.received == s.sent
  {
    ReachableInv(s);
  }

  /** With both threads between calls, the semaphore counts exactly the items. */
  lemma SizeApproxExactAtRest<T(!new)>(s: State<T>)
    requires Reachable(s) && s.consumer.Away? && s.producer.Out?
    ensures s.count == |s.items| && s.kernel == 0
  {
    ReachableInv(s);
  }
}
