/** The threads of multithreaded_sensor.h: the reader splits the input into bulks, the worker collects the records of
    each bulk and cuts them into packs, the sender dispatches the packs. They are joined by two locked queues, each of
    whose operations is one step, and stop at a null pointer that is passed down the line. The bulks of the input and
    what the tracer collects from a bulk are parameters, and so are the capacity of a bulk operation and the pack
    size. */
module Pipeline {
  import opened Prelude

  datatype Config<!B, !R> = Config(input: seq<B>, collect: B -> seq<R>, limit: nat, capacity: nat)

  datatype Reader = Reading | Ending | ReaderDone

  /** Looping has what is left of the array it has dequeued; Checking has just collected a bulk. */
  datatype Worker = Looping | Checking | Flushing | Echoing | Signalling | WorkerDone

  datatype Sender = Sending | SenderDone

  /** `hand`, `batch` and `parcel` are the arrays of the three threads. For the proof: how many bulks have been read,
      published and collected, and every pack that was made. */
  datatype State<!B, R> = State(
    reader: Reader, read: nat, published: nat, stream: seq<Option<B>>,
    worker: Worker, batch: seq<Option<B>>, collected: nat, data: seq<R>, packs: seq<seq<R>>,
    result: seq<Option<seq<R>>>, sender: Sender, parcel: seq<Option<seq<R>>>, dispatched: seq<seq<R>>, finished: bool)

  datatype Action =
    | ReadBulk | PublishBulks | EndInput
    | TakeBulks | Collect | SeeNull | Ship | Flush | Echo | Signal
    | TakePacks | Dispatch | Stop

  function Somes<T>(xs: seq<T>): seq<Option<T>> { seq(|xs|, i requires 0 <= i < |xs| => Some(xs[i])) }

  function Flat<R>(packs: seq<seq<R>>): seq<R> {
    if packs == [] then [] else Flat(packs[..|packs| - 1]) + packs[|packs| - 1]
  }

  /** The records of the first n bulks. */
  function Records<B, R>(c: Config<B, R>, n: nat): seq<R>
    requires n <= |c.input|
  {
    if n == 0 then [] else Records(c, n - 1) + c.collect(c.input[n - 1])
  }

  ghost predicate Enabled<B, R>(c: Config<B, R>, s: State<B, R>, a: Action) {
    match a
    case ReadBulk => s.reader.Reading? && s.read < |c.input| && s.published <= s.read < s.published + c.capacity
    case PublishBulks => s.reader.Reading? && s.published <= s.read <= |c.input|
        && (s.read == s.published + c.capacity || s.read == |c.input|)
    case EndInput => s.reader.Ending?
    case TakeBulks => s.worker.Looping? && s.batch == [] && s.stream != []
    case Collect => s.worker.Looping? && s.batch != [] && s.batch[0].Some?
    case SeeNull => s.worker.Looping? && s.batch != [] && s.batch[0].None?
    case Ship => s.worker.Checking?
    case Flush => s.worker.Flushing?
    case Echo => s.worker.Echoing?
    case Signal => s.worker.Signalling?
    case TakePacks => s.sender.Sending? && s.parcel == [] && s.result != []
    case Dispatch => s.sender.Sending? && s.parcel != [] && s.parcel[0].Some?
    case Stop => s.sender.Sending? && s.parcel != [] && s.parcel[0].None?
  }

  function Bulks<B, R>(c: Config<B, R>, s: State<B, R>): seq<B>
    requires s.published <= s.read <= |c.input|
  {
    c.input[s.published..s.read]
  }

  function Step<B, R>(c: Config<B, R>, s: State<B, R>, a: Action): State<B, R>
    requires Enabled(c, s, a)
  {
    match a
    case ReadBulk => s.(read := s.read + 1)
    case PublishBulks =>
      s.(stream := s.stream + Somes(Bulks(c, s)), published := s.read,
         reader := if s.read == |c.input| then Ending else Reading)
    case EndInput => s.(stream := s.stream + [None], reader := ReaderDone)
    case TakeBulks =>
      var n := Min(c.capacity, |s.stream|);
      s.(batch := s.stream[..n], stream := s.stream[n..])
    case Collect =>
      s.(batch := s.batch[1..], collected := s.collected + 1, data := s.data + c.collect(s.batch[0].value),
         worker := Checking)
    case SeeNull => s.(batch := s.batch[1..], worker := Flushing)
    case Ship =>
      if |s.data| >= c.limit
      then s.(packs := s.packs + [s.data], result := s.result + [Some(s.data)], data := [], worker := Looping)
      else s.(worker := Looping)
    case Flush =>
      if s.data != []
      then s.(packs := s.packs + [s.data], result := s.result + [Some(s.data)], data := [], worker := Echoing)
      else s.(worker := Echoing)
    case Echo => s.(stream := s.stream + [None], worker := Signalling)
    case Signal => s.(result := s.result + [None], worker := WorkerDone)
    case TakePacks =>
      var n := Min(c.capacity, |s.result|);
      s.(parcel := s.result[..n], result := s.result[n..])
    case Dispatch => s.(parcel := s.parcel[1..], dispatched := s.dispatched + [s.parcel[0].value])
    case Stop => s.(parcel := s.parcel[1..], sender := SenderDone, finished := true)
  }

  ghost predicate Reaches<B(!new), R(!new)>(c: Config<B, R>, run: Trace<Action>, s: State<B, R>) {
    match run
    case Start => s == State(Reading, 0, 0, [], Looping, [], 0, [], [], [], Sending, [], [], false)
    case Then(before, a) => exists p: State<B, R> :: Reaches(c, before, p) && Enabled(c, p, a) && s == Step(c, p, a)
  }

  ghost predicate Reachable<B(!new), R(!new)>(c: Config<B, R>, s: State<B, R>) { exists run :: Reaches(c, run, s) }

  // ----- The invariant -----

  function Null<T>(b: bool): seq<Option<T>> { if b then [None] else [] }

  /** The worker has not seen the null yet. */
  predicate Awaiting(w: Worker) { w.Looping? || w.Checking? }

  /** What is on the way to the worker: the bulks published and not collected, the reader's null behind them, and in the
      end the null that the worker puts back. */
  ghost predicate StreamInv<B, R>(c: Config<B, R>, s: State<B, R>) {
    && s.collected <= s.published <= s.read <= |c.input| && s.read <= s.published + c.capacity
    && (!s.reader.Reading? ==> s.published == |c.input|)
    && (!Awaiting(s.worker) ==> s.reader.ReaderDone? && s.collected == |c.input|)
    && s.batch + s.stream == Somes(c.input[s.collected..s.published])
         + Null(s.reader.ReaderDone? && (Awaiting(s.worker) || s.worker.Signalling? || s.worker.WorkerDone?))
  }

  /** The records collected are those in the packs, in order, and in the pack being filled. */
  ghost predicate DataInv<B, R>(c: Config<B, R>, s: State<B, R>) {
    && s.collected <= |c.input| && Flat(s.packs) + s.data == Records(c, s.collected)
    && (s.worker.Looping? && c.limit > 0 ==> |s.data| < c.limit)
    && (s.worker.Echoing? || s.worker.Signalling? || s.worker.WorkerDone? ==> s.data == [])
  }

  /** Every pack has the size that was asked for, but for the one made at the end, which is not empty. */
  ghost predicate PacksInv<B, R>(c: Config<B, R>, s: State<B, R>) {
    && (forall i :: 0 <= i < |s.packs| - 1 ==> |s.packs[i]| >= c.limit)
    && (s.packs != [] ==> |s.packs[|s.packs| - 1]| >= c.limit || (!Awaiting(s.worker) && !s.worker.Flushing?))
    && (s.packs != [] && c.limit > 0 ==> s.packs[|s.packs| - 1] != [])
  }

  /** What is on the way to the sender: the packs made and not dispatched, and the worker's null behind them. */
  ghost predicate ResultInv<B, R>(s: State<B, R>) {
    && |s.dispatched| <= |s.packs| && s.dispatched == s.packs[..|s.dispatched|]
    && (s.sender.SenderDone? ==> s.worker.WorkerDone? && |s.dispatched| == |s.packs|)
    && (s.finished <==> s.sender.SenderDone?)
    && s.parcel + s.result == Somes(s.packs[|s.dispatched|..]) + Null(s.worker.WorkerDone? && s.sender.Sending?)
  }

  ghost predicate Inv<B, R>(c: Config<B, R>, s: State<B, R>) {
    StreamInv(c, s) && DataInv(c, s) && PacksInv(c, s) && ResultInv(s)
  }

  lemma SomesAppend<T>(xs: seq<T>, ys: seq<T>)
    ensures Somes(xs + ys) == Somes(xs) + Somes(ys)
  {}

  lemma FlatAppend<R>(packs: seq<seq<R>>, pack: seq<R>)
    ensures Flat(packs + [pack]) == Flat(packs) + pack
  {
    assert (packs + [pack])[..|packs|] == packs;
  }

  // ----- Steps -----

  lemma PreserveReader<B, R>(c: Config<B, R>, s: State<B, R>, a: Action)
    requires Inv(c, s) && Enabled(c, s, a) && (a.ReadBulk? || a.PublishBulks? || a.EndInput?)
    ensures Inv(c, Step(c, s, a))
  {
    hide Flat, Records, StreamInv;
    if a.PublishBulks? { PublishStream(c, s); } else { ReaderStream(c, s, a); }
  }

  lemma ReaderStream<B, R>(c: Config<B, R>, s: State<B, R>, a: Action)
    requires StreamInv(c, s) && Enabled(c, s, a) && (a.ReadBulk? || a.EndInput?)
    ensures StreamInv(c, Step(c, s, a))
  {
    if a.EndInput? { assert s.batch + (s.stream + [None]) == (s.batch + s.stream) + [None]; }
  }

  lemma PublishStream<B, R>(c: Config<B, R>, s: State<B, R>)
    requires StreamInv(c, s) && Enabled(c, s, PublishBulks)
    ensures StreamInv(c, Step(c, s, PublishBulks))
  {
    var earlier, more := c.input[s.collected..s.published], Bulks(c, s);
    assert c.input[s.collected..s.read] == earlier + more;
    SomesAppend(earlier, more);
    assert s.batch + (s.stream + Somes(more)) == (s.batch + s.stream) + Somes(more);
    assert s.batch + s.stream == Somes(earlier);
  }

  lemma PreserveTakeBulks<B, R>(c: Config<B, R>, s: State<B, R>)
    requires Inv(c, s) && Enabled(c, s, TakeBulks)
    ensures Inv(c, Step(c, s, TakeBulks))
  {
    hide Flat, Records, Somes;
    var s' := Step(c, s, TakeBulks);
    assert s'.batch + s'.stream == s.batch + s.stream;
  }

  /** The first thing on the way to the worker. */
  lemma FirstBulk<B, R>(c: Config<B, R>, s: State<B, R>)
    requires StreamInv(c, s) && Awaiting(s.worker) && s.batch != []
    ensures s.batch[0].Some? ==> s.collected < s.published && s.batch[0].value == c.input[s.collected]
    ensures s.batch[0].None? ==> s.reader.ReaderDone? && s.collected == |c.input|
    ensures s.batch[1..] + s.stream == (s.batch + s.stream)[1..]
  {
    assert s.batch[0] == (s.batch + s.stream)[0];
    assert s.batch[1..] + s.stream == (s.batch + s.stream)[1..];
  }

  lemma PreserveCollect<B, R>(c: Config<B, R>, s: State<B, R>)
    requires Inv(c, s) && Enabled(c, s, Collect)
    ensures Inv(c, Step(c, s, Collect))
  {
    hide StreamInv, Flat, Somes;
    FirstBulk(c, s);
    CollectStream(c, s);
    Associate(Flat(s.packs), s.data, c.collect(s.batch[0].value));
    assert s.collected < |c.input| by { Unread(c, s); }
  }

  lemma Unread<B, R>(c: Config<B, R>, s: State<B, R>)
    requires StreamInv(c, s) && s.collected < s.published
    ensures s.collected < |c.input|
  {}

  lemma CollectStream<B, R>(c: Config<B, R>, s: State<B, R>)
    requires StreamInv(c, s) && Enabled(c, s, Collect)
    ensures StreamInv(c, Step(c, s, Collect))
  {
    FirstBulk(c, s);
    var s' := Step(c, s, Collect);
    var rest := c.input[s.collected..s.published];
    assert Somes(rest)[1..] == Somes(rest[1..]) && rest[1..] == c.input[s'.collected..s.published];
    assert (Somes(rest) + Null(s.reader.ReaderDone?))[1..] == Somes(rest)[1..] + Null(s.reader.ReaderDone?);
  }

  lemma PreserveSeeNull<B, R>(c: Config<B, R>, s: State<B, R>)
    requires Inv(c, s) && Enabled(c, s, SeeNull)
    ensures Inv(c, Step(c, s, SeeNull))
  {
    hide Flat, Records;
    FirstBulk(c, s);
  }

  /** A pack is made and enqueued. */
  lemma Shipped<B, R>(c: Config<B, R>, s: State<B, R>, s': State<B, R>)
    requires DataInv(c, s) && ResultInv(s) && !s.worker.WorkerDone? && !s'.worker.WorkerDone?
    requires s' == s.(packs := s.packs + [s.data], result := s.result + [Some(s.data)], data := [], worker := s'.worker)
    ensures DataInv(c, s') && ResultInv(s')
  {
    FlatAppend(s.packs, s.data);
    hide Flat, Records;
    var n := |s.dispatched|;
    assert s'.packs[n..] == s.packs[n..] + [s.data];
    SomesAppend(s.packs[n..], [s.data]);
    assert s'.parcel + s'.result == (s.parcel + s.result) + [Some(s.data)];
  }

  lemma PreserveShip<B, R>(c: Config<B, R>, s: State<B, R>)
    requires Inv(c, s) && Enabled(c, s, Ship)
    ensures Inv(c, Step(c, s, Ship))
  {
    hide Flat, Records, Somes;
    if |s.data| >= c.limit { Shipped(c, s, Step(c, s, Ship)); }
  }

  lemma PreserveFlush<B, R>(c: Config<B, R>, s: State<B, R>)
    requires Inv(c, s) && Enabled(c, s, Flush)
    ensures Inv(c, Step(c, s, Flush))
  {
    hide Flat, Records;
    if s.data != [] { Shipped(c, s, Step(c, s, Flush)); }
  }

  lemma PreserveNulls<B, R>(c: Config<B, R>, s: State<B, R>, a: Action)
    requires Inv(c, s) && Enabled(c, s, a) && (a.Echo? || a.Signal?)
    ensures Inv(c, Step(c, s, a))
  {
    hide Flat, Records;
    var s' := Step(c, s, a);
    if a.Echo? {
      assert s'.batch + s'.stream == (s.batch + s.stream) + [None];
    } else {
      assert s'.parcel + s'.result == (s.parcel + s.result) + [None];
    }
  }

  lemma PreserveSender<B, R>(c: Config<B, R>, s: State<B, R>, a: Action)
    requires Inv(c, s) && Enabled(c, s, a) && (a.TakePacks? || a.Dispatch? || a.Stop?)
    ensures Inv(c, Step(c, s, a))
  {
    hide Flat, Records, ResultInv;
    if a.TakePacks? { TakePacksResult(c, s); } else { DispatchResult(c, s, a); }
  }

  lemma TakePacksResult<B, R>(c: Config<B, R>, s: State<B, R>)
    requires ResultInv(s) && Enabled(c, s, TakePacks)
    ensures ResultInv(Step(c, s, TakePacks))
  {
    var s' := Step(c, s, TakePacks);
    assert s'.parcel + s'.result == s.parcel + s.result;
    hide Somes;
  }

  lemma DispatchResult<B, R>(c: Config<B, R>, s: State<B, R>, a: Action)
    requires ResultInv(s) && Enabled(c, s, a) && (a.Dispatch? || a.Stop?)
    ensures ResultInv(Step(c, s, a))
  {
    var s' := Step(c, s, a);
    var n := |s.dispatched|;
    assert s.parcel[0] == (s.parcel + s.result)[0] && s'.parcel + s'.result == (s.parcel + s.result)[1..];
    if a.Dispatch? {
      assert s'.dispatched == s.packs[..n + 1];
      FirstSome(s.packs[n..], Null(s.worker.WorkerDone? && s.sender.Sending?));
      assert s.packs[n..][1..] == s.packs[n + 1..];
    }
  }

  lemma FirstSome<T>(xs: seq<T>, ys: seq<Option<T>>)
    requires xs != []
    ensures (Somes(xs) + ys)[1..] == Somes(xs[1..]) + ys
  {}

  lemma PreserveStep<B, R>(c: Config<B, R>, s: State<B, R>, a: Action)
    requires Inv(c, s) && Enabled(c, s, a)
    ensures Inv(c, Step(c, s, a))
  {
    hide Inv, Step;
    match a
    case ReadBulk => PreserveReader(c, s, a);
    case PublishBulks => PreserveReader(c, s, a);
    case EndInput => PreserveReader(c, s, a);
    case TakeBulks => PreserveTakeBulks(c, s);
    case Collect => PreserveCollect(c, s);
    case SeeNull => PreserveSeeNull(c, s);
    case Ship => PreserveShip(c, s);
    case Flush => PreserveFlush(c, s);
    case Echo => PreserveNulls(c, s, a);
    case Signal => PreserveNulls(c, s, a);
    case TakePacks => PreserveSender(c, s, a);
    case Dispatch => PreserveSender(c, s, a);
    case Stop => PreserveSender(c, s, a);
  }

  lemma {:induction false} RunInv<B(!new), R(!new)>(c: Config<B, R>, run: Trace<Action>, s: State<B, R>)
    requires Reaches(c, run, s)
    ensures Inv(c, s)
  {
    hide Step;
    match run
    case Start =>
    case Then(before, a) =>
      var p: State<B, R> :| Reaches(c, before, p) && Enabled(c, p, a) && s == Step(c, p, a);
      RunInv(c, before, p);
      PreserveStep(c, p, a);
  }

  // ----- What holds in every run -----

  lemma {:induction false} FlatPrefix<R>(packs: seq<seq<R>>, n: nat)
    requires n <= |packs|
    ensures Flat(packs[..n]) <= Flat(packs)
  {
    if n < |packs| {
      var front := packs[..|packs| - 1];
      FlatPrefix(front, n);
      assert front[..n] == packs[..n];
    } else {
      assert packs[..n] == packs;
    }
  }

  lemma {:induction false} RecordsPrefix<B, R>(c: Config<B, R>, n: nat, m: nat)
    requires n <= m <= |c.input|
    ensures Records(c, n) <= Records(c, m)
  {
    if n < m { RecordsPrefix(c, n, m - 1); }
  }

  /** What has been dispatched at any time is a prefix of the records of the whole input, in their order. */
  lemma DispatchedInOrder<B(!new), R(!new)>(c: Config<B, R>, s: State<B, R>)
    requires Reachable(c, s)
    ensures Flat(s.dispatched) <= Records(c, |c.input|)
  {
    var run :| Reaches(c, run, s);
    RunInv(c, run, s);
    FlatPrefix(s.packs, |s.dispatched|);
    RecordsPrefix(c, s.collected, |c.input|);
    assert Flat(s.packs) <= Flat(s.packs) + s.data;
  }

  /** When `finished` has been set everything has been dispatched. */
  lemma FinishedMeansComplete<B(!new), R(!new)>(c: Config<B, R>, s: State<B, R>)
    requires Reachable(c, s) && s.finished
    ensures Flat(s.dispatched) == Records(c, |c.input|)
  {
    var run :| Reaches(c, run, s);
    RunInv(c, run, s);
    assert s.dispatched == s.packs && Flat(s.packs) + [] == Flat(s.packs);
  }

  /** Every pack dispatched has at least the size that was asked for, except what was left over at the end of the
      input. */
  lemma PacksLargeEnough<B(!new), R(!new)>(c: Config<B, R>, s: State<B, R>, i: nat)
    requires Reachable(c, s) && i < |s.dispatched|
    ensures |s.dispatched[i]| >= c.limit || (!Awaiting(s.worker) && !s.worker.Flushing? && i == |s.packs| - 1)
    ensures c.limit > 0 ==> s.dispatched[i] != []
  {
    var run :| Reaches(c, run, s);
    RunInv(c, run, s);
    assert s.dispatched[i] == s.packs[i];
  }

  /** No thread has a step left. */
  ghost predicate AtRest<B, R>(c: Config<B, R>, s: State<B, R>) { forall a :: !Enabled(c, s, a) }

  /** When no thread can go on, all three have stopped, everything has been dispatched, and one null is left in the
      stream queue. */
  lemma RestMeansDone<B(!new), R(!new)>(c: Config<B, R>, s: State<B, R>)
    requires Reachable(c, s) && AtRest(c, s) && c.capacity > 0
    ensures s.finished && s.reader.ReaderDone? && s.worker.WorkerDone? && s.sender.SenderDone?
    ensures Flat(s.dispatched) == Records(c, |c.input|)
    ensures s.stream == [None] && s.batch == [] && s.result == [] && s.parcel == [] && s.data == []
  {
    var run :| Reaches(c, run, s);
    RunInv(c, run, s);
    hide Flat, Records, Reachable, Reaches;
    ReaderRests(c, s);
    WorkerRests(c, s);
    SenderRests(c, s);
    FinishedMeansComplete(c, s);
    BatchEmpty(c, run, s);
    hide Enabled;
    assert s.batch + s.stream == s.stream && s.parcel + s.result == [];
  }

  lemma ReaderRests<B, R>(c: Config<B, R>, s: State<B, R>)
    requires Inv(c, s) && AtRest(c, s) && c.capacity > 0
    ensures s.reader.ReaderDone?
  {
    hide Flat, Records;
    assert !Enabled(c, s, ReadBulk) && !Enabled(c, s, PublishBulks) && !Enabled(c, s, EndInput);
  }

  lemma WorkerRests<B, R>(c: Config<B, R>, s: State<B, R>)
    requires Inv(c, s) && AtRest(c, s) && s.reader.ReaderDone?
    ensures s.worker.WorkerDone?
  {
    hide Flat, Records;
    assert !Enabled(c, s, TakeBulks) && !Enabled(c, s, Collect) && !Enabled(c, s, SeeNull) && !Enabled(c, s, Ship);
    assert !Enabled(c, s, Flush) && !Enabled(c, s, Echo) && !Enabled(c, s, Signal);
    assert |s.batch + s.stream| == |s.batch| + |s.stream|;
  }

  lemma SenderRests<B, R>(c: Config<B, R>, s: State<B, R>)
    requires Inv(c, s) && AtRest(c, s) && s.worker.WorkerDone?
    ensures s.sender.SenderDone?
  {
    hide Flat, Records;
    assert !Enabled(c, s, TakePacks) && !Enabled(c, s, Dispatch) && !Enabled(c, s, Stop);
    assert |s.parcel + s.result| == |s.parcel| + |s.result|;
  }

  /** The worker stops at the end of its array: nothing is dequeued behind the null. */
  lemma {:induction false} BatchEmpty<B(!new), R(!new)>(c: Config<B, R>, run: Trace<Action>, s: State<B, R>)
    requires Reaches(c, run, s) && !Awaiting(s.worker)
    ensures s.batch == []
  {
    match run
    case Start =>
    case Then(before, a) =>
      var p: State<B, R> :| Reaches(c, before, p) && Enabled(c, p, a) && s == Step(c, p, a);
      RunInv(c, before, p);
      if Awaiting(p.worker) {
        FirstBulk(c, p);
        assert a.SeeNull? && |p.batch + p.stream| == 1;
      } else {
        BatchEmpty(c, before, p);
      }
  }

  // ----- Every run ends -----

  function ReaderRank<B, R>(c: Config<B, R>, s: State<B, R>): int {
    match s.reader
    case Reading => 20 + 16 * (|c.input| - s.published) - 8 * (s.read - s.published)
    case Ending => 10
    case ReaderDone => 0
  }

  function WorkerRank(w: Worker): nat {
    match w
    case Looping => 40
    case Checking => 44
    case Flushing => 30
    case Echoing => 24
    case Signalling => 10
    case WorkerDone => 0
  }

  /** What the threads still have to do. */
  function Rank<B, R>(c: Config<B, R>, s: State<B, R>): int {
    ReaderRank(c, s) + 7 * |s.stream| + WorkerRank(s.worker) + 6 * |s.batch| + 3 * |s.result| + 2 * |s.parcel|
      + if s.sender.Sending? then 1 else 0
  }

  /** Every step brings the end nearer, so that every schedule of the three threads ends. */
  lemma StepsEnd<B(!new), R(!new)>(c: Config<B, R>, s: State<B, R>, a: Action)
    requires Reachable(c, s) && Enabled(c, s, a) && c.capacity > 0
    ensures 0 <= Rank(c, Step(c, s, a)) < Rank(c, s)
  {
    var run :| Reaches(c, run, s);
    RunInv(c, run, s);
    PreserveStep(c, s, a);
    hide Reaches, Flat, Records, Enabled, Step;
    RankFalls(c, s, a);
  }

  lemma RankFalls<B, R>(c: Config<B, R>, s: State<B, R>, a: Action)
    requires s.published <= s.read <= |c.input| && Enabled(c, s, a) && c.capacity > 0
    requires Step(c, s, a).published <= Step(c, s, a).read <= |c.input|
    ensures 0 <= Rank(c, Step(c, s, a)) < Rank(c, s)
  {
    hide Flat, Records;
  }
}
