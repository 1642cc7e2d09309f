/** The lock-free free list of concurrentqueue.h (struct FreeList), as a machine whose every step is
    one atomic load, store, compare-exchange or fetch-add of the source, run by any number of threads
    in any order. */
module FreeList {
  import opened Prelude

  type Node = nat
  type Link = Option<Node>

  /** The 32-bit freeListRefs word: the top bit is the should-be-on-free-list flag. */
  const SHOULD_BE_ON_FREELIST: nat := 0x8000_0000

  type Word = w: nat | w < WORD32

  datatype Cell = Cell(refs: Word, next: Link)

  /** Where add_knowing_refcount_is_zero returns to: add itself, or the loop of try_get. */
  datatype After = Return | Resume(head: Link)

  /** The program points of add, add_knowing_refcount_is_zero and try_get, with the locals live there. */
  datatype Pc =
    | Idle
    | AddSet(node: Node)
    | PushLoad(node: Node, after: After)
    | PushNext(node: Node, head: Link, after: After)
    | PushRefs(node: Node, head: Link, after: After)
    | PushCas(node: Node, head: Link, after: After)
    | PushUndo(node: Node, head: Link, after: After)
    | GetLoad
    | GetRefs(node: Node)
    | GetRef(node: Node, refs: Word)
    | GetNext(node: Node)
    | GetCas(node: Node, next: Link)
    | GetCheck(node: Node)
    | GetDrop(node: Node)
    | GetUnref(node: Node, head: Link)

  /** `owned` holds the nodes that are in the hands of the list's clients. */
  datatype State = State(head: Link, cells: map<Node, Cell>, owned: set<Node>, threads: seq<Pc>)

  datatype Action = Create(n: Node) | CallAdd(t: nat, n: Node) | CallTryGet(t: nat) | Run(t: nat)

  /** fetch_add on a 32-bit word: the sum wraps around. */
  function FetchAdd(word: Word, delta: int): Word
    requires -(WORD32 as int) <= delta < WORD32
  {
    if word + delta < 0 then word + delta + WORD32
    else if word + delta >= WORD32 then word + delta - WORD32
    else word + delta
  }

  /** refs & REFS_MASK */
  function Masked(word: Word): nat {
    if word < SHOULD_BE_ON_FREELIST then word else word - SHOULD_BE_ON_FREELIST
  }

  predicate Known(s: State, l: Link) {
    l.Some? ==> l.value in s.cells
  }

  /** The loop test of try_get: leave when the head is null, otherwise look at that head's count. */
  function LoopAt(head: Link): Pc {
    if head.None? then Idle else GetRefs(head.value)
  }

  function Finish(after: After): Pc {
    if after.Return? then Idle else LoopAt(after.head)
  }

  predicate Enabled(s: State, a: Action) {
    match a
    case Create(n) => n !in s.cells
    case CallAdd(t, n) => t < |s.threads| && s.threads[t].Idle? && n in s.owned
    case CallTryGet(t) => t < |s.threads| && s.threads[t].Idle?
    case Run(t) => t < |s.threads| && !s.threads[t].Idle? && Dereferenceable(s, s.threads[t])
  }

  /** The node a thread is about to touch exists. */
  predicate Dereferenceable(s: State, pc: Pc) {
    pc.Idle? || pc.GetLoad? || pc.node in s.cells
  }

  function Goto(s: State, t: nat, pc: Pc): State
    requires t < |s.threads|
  {
    s.(threads := s.threads[t := pc])
  }

  function SetRefs(s: State, n: Node, word: Word): State
    requires n in s.cells
  {
    s.(cells := s.cells[n := s.cells[n].(refs := word)])
  }

  function Step(s: State, a: Action): State
    requires Enabled(s, a)
  {
    match a
    case Create(n) => s.(cells := s.cells[n := Cell(0, None)], owned := s.owned + {n})
    case CallAdd(t, n) => Goto(s.(owned := s.owned - {n}), t, AddSet(n))
    case CallTryGet(t) => Goto(s, t, GetLoad)
    case Run(t) => Execute(s, t)
  }

  function Execute(s: State, t: nat): State
    requires Enabled(s, Run(t))
  {
    match s.threads[t]
    case AddSet(n) =>
      var was := s.cells[n].refs;
      Goto(SetRefs(s, n, FetchAdd(was, SHOULD_BE_ON_FREELIST)), t, if was == 0 then PushLoad(n, Return) else Idle)
    case PushLoad(n, after) =>
      Goto(s, t, PushNext(n, s.head, after))
    case PushNext(n, head, after) =>
      Goto(s.(cells := s.cells[n := s.cells[n].(next := head)]), t, PushRefs(n, head, after))
    case PushRefs(n, head, after) =>
      Goto(SetRefs(s, n, 1), t, PushCas(n, head, after))
    case PushCas(n, head, after) =>
      if s.head == head then Goto(s.(head := Some(n)), t, Finish(after))
      else Goto(s, t, PushUndo(n, s.head, after))
    case PushUndo(n, head, after) =>
      var was := s.cells[n].refs;
      Goto(SetRefs(s, n, FetchAdd(was, SHOULD_BE_ON_FREELIST - 1)), t,
           if was == 1 then PushNext(n, head, after) else Finish(after))
    case GetLoad =>
      Goto(s, t, LoopAt(s.head))
    case GetRefs(n) =>
      Goto(s, t, if Masked(s.cells[n].refs) == 0 then GetLoad else GetRef(n, s.cells[n].refs))
    case GetRef(n, refs) =>
      if s.cells[n].refs == refs then Goto(SetRefs(s, n, FetchAdd(refs, 1)), t, GetNext(n))
      else Goto(s, t, GetLoad)
    case GetNext(n) =>
      Goto(s, t, GetCas(n, s.cells[n].next))
    case GetCas(n, next) =>
      if s.head == Some(n) then Goto(s.(head := next), t, GetCheck(n))
      else Goto(s, t, GetUnref(n, s.head))
    case GetCheck(n) =>
      Goto(s, t, GetDrop(n))
    case GetDrop(n) =>
      Goto(SetRefs(s, n, FetchAdd(s.cells[n].refs, -2)).(owned := s.owned + {n}), t, Idle)
    case GetUnref(n, head) =>
      var was := s.cells[n].refs;
      Goto(SetRefs(s, n, FetchAdd(was, -1)), t,
           if was == SHOULD_BE_ON_FREELIST + 1 then PushLoad(n, Resume(head)) else LoopAt(head))
  }

  // ----- What each thread holds -----

  /** Between the fetch-add that found no reference left and the store of 1: nobody else can see the node. */
  predicate Linking(pc: Pc) { pc.PushLoad? || pc.PushNext? || pc.PushRefs? }

  /** The list's own reference travels with a thread that is linking a node or has just unlinked it. */
  predicate CarriesListRef(pc: Pc) { pc.PushCas? || pc.PushUndo? || pc.GetCheck? || pc.GetDrop? }

  /** try_get's own reference to the node it looks at. */
  predicate CarriesOwnRef(pc: Pc) { pc.GetNext? || pc.GetCas? || pc.GetUnref? || pc.GetCheck? || pc.GetDrop? }

  function One(b: bool): nat { if b then 1 else 0 }

  /** How many of node n's references thread pc carries. */
  function Weight(pc: Pc, n: Node): nat {
    if !pc.Idle? && !pc.GetLoad? && pc.node == n then One(CarriesListRef(pc)) + One(CarriesOwnRef(pc)) else 0
  }

  /** Whether thread pc is adding n, or has taken n off the list and not yet returned it. */
  function Keeps(pc: Pc, n: Node): nat {
    if !pc.Idle? && !pc.GetLoad? && pc.node == n then One(pc.AddSet? || Linking(pc) || CarriesListRef(pc)) else 0
  }

  ghost function WeightOf(n: Node): Pc -> nat { pc => Weight(pc, n) }

  ghost function KeepsOf(n: Node): Pc -> nat { pc => Keeps(pc, n) }

  /** References to n carried by threads. */
  ghost function Carried(s: State, n: Node): nat { Sum(WeightOf(n), s.threads) }

  /** Threads that have n in their keeping. */
  ghost function Keepers(s: State, n: Node): nat { Sum(KeepsOf(n), s.threads) }

  /** Marked should-be-on-free-list while references are outstanding. */
  predicate Flagged(s: State, n: Node)
    requires n in s.cells
  {
    s.cells[n].refs > SHOULD_BE_ON_FREELIST
  }

  /** The nodes linked from the head, in order; each once. */
  ghost predicate Chain(s: State, list: seq<Node>) {
    && (forall i :: 0 <= i < |list| ==> list[i] in s.cells)
    && (forall i, j :: 0 <= i < j < |list| ==> list[i] != list[j])
    && s.head == LinkAt(list, 0)
    && (forall i {:trigger LinkOk(s, list, i)} :: 0 <= i < |list| ==> LinkOk(s, list, i))
  }

  ghost predicate LinkOk(s: State, list: seq<Node>, i: nat) {
    i < |list| && list[i] in s.cells && s.cells[list[i]].next == LinkAt(list, i + 1)
  }

  ghost function LinkAt(list: seq<Node>, i: nat): Link {
    if i < |list| then Some(list[i]) else None
  }

  /** Node n is in exactly one place, and its word counts exactly the references there are. */
  ghost predicate NodeOk(s: State, list: seq<Node>, n: Node)
    requires n in s.cells
  {
    var word := s.cells[n].refs;
    && Masked(word) == Carried(s, n) + One(n in list)
    && Keepers(s, n) + One(n in s.owned) + One(n in list) + One(Flagged(s, n)) == 1
    && (n in s.owned || n in list ==> word < SHOULD_BE_ON_FREELIST)
  }

  ghost predicate PcOk(s: State, pc: Pc) {
    && Dereferenceable(s, pc)
    && (Linking(pc) ==> s.cells[pc.node].refs == SHOULD_BE_ON_FREELIST)
    && (pc.AddSet? || CarriesListRef(pc) ==> s.cells[pc.node].refs < SHOULD_BE_ON_FREELIST)
    && (pc.PushRefs? || pc.PushCas? ==> s.cells[pc.node].next == pc.head)
    && (pc.GetCas? ==> s.cells[pc.node].next == pc.next)
    && (pc.GetRef? ==> Masked(pc.refs) != 0)
    && (pc.PushNext? || pc.PushRefs? || pc.PushCas? || pc.PushUndo? || pc.GetUnref? ==> Known(s, pc.head))
    && (Linking(pc) || pc.PushCas? || pc.PushUndo? ==> pc.after.Resume? ==> Known(s, pc.after.head))
  }

  ghost predicate NodesOk(s: State, list: seq<Node>) {
    forall n :: n in s.cells ==> NodeOk(s, list, n)
  }

  ghost predicate PcsOk(s: State) {
    forall t :: 0 <= t < |s.threads| ==> PcOk(s, s.threads[t])
  }

  ghost predicate LinksOk(s: State) {
    && s.owned <= s.cells.Keys
    && (forall n :: n in s.cells ==> Known(s, s.cells[n].next))
  }

  /** The inductive invariant; the thread bound is the one the 31-bit count can serve. */
  ghost predicate Inv(s: State, list: seq<Node>) {
    |s.threads| + 2 <= SHOULD_BE_ON_FREELIST && Chain(s, list) && NodesOk(s, list) && PcsOk(s) && LinksOk(s)
  }

  // ----- Preservation -----

  /** What moving thread t from one program point to another does to a node's totals. */
  lemma Totals(s: State, s': State, t: nat, pc: Pc, n: Node)
    requires t < |s.threads| && s'.threads == s.threads[t := pc]
    ensures Carried(s', n) == Carried(s, n) - Weight(s.threads[t], n) + Weight(pc, n)
    ensures Keepers(s', n) == Keepers(s, n) - Keeps(s.threads[t], n) + Keeps(pc, n)
    ensures Weight(s.threads[t], n) <= Carried(s, n) && Keeps(s.threads[t], n) <= Keepers(s, n)
  {
    SumUpdate(WeightOf(n), s.threads, t, pc);
    SumUpdate(KeepsOf(n), s.threads, t, pc);
  }

  /** Only the keeper of a node can carry two references to it. */
  lemma CountFits(s: State, n: Node)
    ensures Carried(s, n) <= Keepers(s, n) + |s.threads|
  {
    SumBound(WeightOf(n), KeepsOf(n), s.threads);
  }

  /** Two threads never hold more of a node between them than there is. */
  lemma Others(s: State, t: nat, u: nat, n: Node)
    requires t < |s.threads| && u < |s.threads| && t != u
    ensures Weight(s.threads[t], n) + Weight(s.threads[u], n) <= Carried(s, n)
    ensures Keeps(s.threads[t], n) + Keeps(s.threads[u], n) <= Keepers(s, n)
  {
    if t < u {
      SumTwo(WeightOf(n), s.threads, t, u);
      SumTwo(KeepsOf(n), s.threads, t, u);
    } else {
      SumTwo(WeightOf(n), s.threads, u, t);
      SumTwo(KeepsOf(n), s.threads, u, t);
    }
  }

  /** s' differs from s in thread t, and otherwise at most in what concerns node n. */
  ghost predicate OnlyAt(s: State, s': State, list: seq<Node>, list': seq<Node>, t: nat, n: Node) {
    && t < |s.threads| && |s'.threads| == |s.threads| && s'.threads == s.threads[t := s'.threads[t]]
    && n in s.cells && s'.cells.Keys == s.cells.Keys
    && (forall m :: m in s.cells && m != n ==> s'.cells[m] == s.cells[m])
    && (forall m :: m != n ==> (m in s'.owned <==> m in s.owned) && (m in list' <==> m in list))
    && (forall m :: m != n ==>
        Weight(s'.threads[t], m) == Weight(s.threads[t], m) && Keeps(s'.threads[t], m) == Keeps(s.threads[t], m))
  }

  /** The word of n may change under the other threads only if none of them keeps n, or if it stays an
      unflagged word that nobody is linking; its next pointer only if none of them keeps or reads n. */
  ghost predicate Undisturbed(s: State, s': State, t: nat, n: Node)
    requires t < |s.threads| && n in s.cells && n in s'.cells
  {
    && (s'.cells[n].refs != s.cells[n].refs ==>
        || Keeps(s.threads[t], n) == Keepers(s, n)
        || (s'.cells[n].refs < SHOULD_BE_ON_FREELIST && s.cells[n].refs != SHOULD_BE_ON_FREELIST))
    && (s'.cells[n].next != s.cells[n].next ==> Keeps(s.threads[t], n) == Keepers(s, n) && Carried(s, n) == 0)
  }

  /** What a step of thread t at node n has to show about that thread and that node alone. */
  ghost predicate StepOk(s: State, s': State, list: seq<Node>, list': seq<Node>, t: nat, n: Node) {
    && OnlyAt(s, s', list, list', t, n) && Undisturbed(s, s', t, n)
    && NodeOk(s', list', n) && PcOk(s', s'.threads[t]) && Known(s', s'.cells[n].next)
  }

  /** Thread t is at node n, and both are as the invariant says. */
  ghost predicate At(s: State, list: seq<Node>, t: nat, n: Node) {
    && t < |s.threads| && |s.threads| + 2 <= SHOULD_BE_ON_FREELIST
    && !s.threads[t].Idle? && !s.threads[t].GetLoad? && s.threads[t].node == n
    && PcOk(s, s.threads[t]) && NodeOk(s, list, n) && Known(s, s.cells[n].next)
  }

  lemma NodesKept(s: State, s': State, list: seq<Node>, list': seq<Node>, t: nat, n: Node)
    requires NodesOk(s, list) && OnlyAt(s, s', list, list', t, n) && NodeOk(s', list', n)
    ensures NodesOk(s', list')
  {
    forall m | m in s'.cells ensures NodeOk(s', list', m) {
      if m != n {
        assert NodeOk(s, list, m);
        Totals(s, s', t, s'.threads[t], m);
      }
    }
  }

  lemma PcsKept(s: State, s': State, list: seq<Node>, list': seq<Node>, t: nat, n: Node)
    requires PcsOk(s) && StepOk(s, s', list, list', t, n)
    ensures PcsOk(s')
  {
    forall u | 0 <= u < |s'.threads| ensures PcOk(s', s'.threads[u]) {
      if u != t {
        assert PcOk(s, s.threads[u]);
        Others(s, t, u, n);
      }
    }
  }

  /** The parts of the invariant that speak of other threads and other nodes follow. */
  lemma Compose(s: State, s': State, list: seq<Node>, list': seq<Node>, t: nat, n: Node)
    requires Inv(s, list) && StepOk(s, s', list, list', t, n)
    requires Chain(s', list') && s'.owned <= s'.cells.Keys
    ensures Inv(s', list')
  {
    NodesKept(s, s', list, list', t, n);
    PcsKept(s, s', list, list', t, n);
    forall m | m in s'.cells ensures Known(s', s'.cells[m].next) {
      if m != n { assert Known(s, s.cells[m].next); }
    }
  }

  /** Compose for the steps that leave the head and the linked nodes' next pointers alone. */
  lemma ComposeOffList(s: State, s': State, list: seq<Node>, t: nat, n: Node)
    requires Inv(s, list) && StepOk(s, s', list, list, t, n)
    requires s'.head == s.head && s'.owned <= s'.cells.Keys
    requires n in list ==> s'.cells[n].next == s.cells[n].next
    ensures Inv(s', list)
  {
    forall i | 0 <= i < |list| ensures LinkOk(s', list, i) {
      assert LinkOk(s, list, i) && list[i] in list;
    }
    Compose(s, s', list, list, t, n);
  }

  /** Steps that move one thread without writing anything shared. */
  lemma PreserveLocal(s: State, list: seq<Node>, t: nat, pc: Pc)
    requires Inv(s, list) && t < |s.threads|
    requires forall n :: Weight(pc, n) == Weight(s.threads[t], n) && Keeps(pc, n) == Keeps(s.threads[t], n)
    requires PcOk(s, pc)
    ensures Inv(Goto(s, t, pc), list)
  {
    var s' := Goto(s, t, pc);
    assert NodesOk(s', list) by {
      forall n | n in s'.cells ensures NodeOk(s', list, n) {
        assert NodeOk(s, list, n);
        Totals(s, s', t, pc, n);
      }
    }
    assert PcsOk(s') by {
      forall u | 0 <= u < |s'.threads| ensures PcOk(s', s'.threads[u]) {
        if u != t { assert PcOk(s, s.threads[u]); }
      }
    }
    assert Chain(s', list) by {
      forall i | 0 <= i < |list| ensures LinkOk(s', list, i) {
        assert LinkOk(s, list, i);
      }
    }
    assert forall n :: n in s.cells ==> Known(s, s.cells[n].next);
  }

  lemma ChainPush(s: State, s': State, list: seq<Node>, n: Node)
    requires Chain(s, list) && n in s.cells && n !in list && s.cells[n].next == s.head
    requires s'.cells == s.cells && s'.head == Some(n)
    ensures Chain(s', [n] + list)
  {
    var list' := [n] + list;
    forall i | 0 <= i < |list'| ensures LinkOk(s', list', i) {
      if i > 0 { assert LinkOk(s, list, i - 1); }
    }
  }

  lemma ChainPop(s: State, s': State, list: seq<Node>)
    requires Chain(s, list) && list != []
    requires s'.cells == s.cells && s'.head == s.cells[list[0]].next
    ensures Chain(s', list[1..])
  {
    var list' := list[1..];
    assert LinkOk(s, list, 0);
    forall i | 0 <= i < |list'| ensures LinkOk(s', list', i) {
      assert LinkOk(s, list, i + 1);
    }
  }

  lemma PreserveCreate(s: State, list: seq<Node>, n: Node)
    requires Inv(s, list) && n !in s.cells
    ensures Inv(Step(s, Create(n)), list)
  {
    var s' := Step(s, Create(n));
    Unknown(s, list, n);
    assert NodesOk(s', list) by {
      forall m | m in s'.cells ensures NodeOk(s', list, m) {
        if m != n { assert NodeOk(s, list, m); }
      }
    }
    assert PcsOk(s') by {
      forall u | 0 <= u < |s'.threads| ensures PcOk(s', s'.threads[u]) { assert PcOk(s, s.threads[u]); }
    }
    assert Chain(s', list) by {
      forall i | 0 <= i < |list| ensures LinkOk(s', list, i) {
        assert LinkOk(s, list, i);
      }
    }
  }

  /** No thread refers to a node that does not exist yet. */
  lemma Unknown(s: State, list: seq<Node>, n: Node)
    requires Inv(s, list) && n !in s.cells
    ensures Carried(s, n) == 0 && Keepers(s, n) == 0 && n !in list && n !in s.owned
  {
    forall u | 0 <= u < |s.threads| ensures Weight(s.threads[u], n) == 0 && Keeps(s.threads[u], n) == 0 {
      assert PcOk(s, s.threads[u]);
    }
    SumZero(WeightOf(n), s.threads);
    SumZero(KeepsOf(n), s.threads);
  }

  // ----- One thread, one node -----

  lemma AtCallAdd(s: State, list: seq<Node>, t: nat, n: Node)
    requires t < |s.threads| && s.threads[t].Idle? && n in s.owned && n in s.cells && NodeOk(s, list, n)
    requires Known(s, s.cells[n].next)
    ensures StepOk(s, Step(s, CallAdd(t, n)), list, list, t, n)
  {
    Totals(s, Step(s, CallAdd(t, n)), t, AddSet(n), n);
  }

  /** add: either the references outstanding leave the node flagged, or this thread alone links it. */
  lemma AtAddSet(s: State, list: seq<Node>, t: nat, n: Node)
    requires At(s, list, t, n) && s.threads[t].AddSet?
    ensures StepOk(s, Execute(s, t), list, list, t, n)
  {
    Totals(s, Execute(s, t), t, Execute(s, t).threads[t], n);
  }

  /** Only a thread that keeps n, with no reference outstanding, ever writes n's next pointer. */
  lemma AtPushNext(s: State, list: seq<Node>, t: nat, n: Node)
    requires At(s, list, t, n) && s.threads[t].PushNext?
    ensures StepOk(s, Execute(s, t), list, list, t, n) && n !in list
  {
    Totals(s, Execute(s, t), t, Execute(s, t).threads[t], n);
  }

  lemma AtPushRefs(s: State, list: seq<Node>, t: nat, n: Node)
    requires At(s, list, t, n) && s.threads[t].PushRefs?
    ensures StepOk(s, Execute(s, t), list, list, t, n)
  {
    Totals(s, Execute(s, t), t, Execute(s, t).threads[t], n);
  }

  /** A successful push: the reference the thread carried becomes the list's. */
  lemma AtPushCas(s: State, list: seq<Node>, t: nat, n: Node)
    requires At(s, list, t, n) && s.threads[t].PushCas? && s.head == s.threads[t].head
    ensures StepOk(s, Execute(s, t), list, [n] + list, t, n) && n !in list
  {
    Totals(s, Execute(s, t), t, Execute(s, t).threads[t], n);
  }

  /** A failed push: the node is flagged for whoever drops the last reference, or is tried again. */
  lemma AtPushUndo(s: State, list: seq<Node>, t: nat, n: Node)
    requires At(s, list, t, n) && s.threads[t].PushUndo?
    ensures StepOk(s, Execute(s, t), list, list, t, n)
  {
    CountFits(s, n);
    Totals(s, Execute(s, t), t, Execute(s, t).threads[t], n);
  }

  /** The count was seen non-zero, so a successful compare-exchange adds a reference to a live count. */
  lemma AtGetRef(s: State, list: seq<Node>, t: nat, n: Node)
    requires At(s, list, t, n) && s.threads[t].GetRef? && s.cells[n].refs == s.threads[t].refs
    ensures StepOk(s, Execute(s, t), list, list, t, n)
  {
    Totals(s, Execute(s, t), t, GetNext(n), n);
    CountFits(Execute(s, t), n);
  }

  /** A successful take: the list's reference passes to the thread. */
  lemma AtGetCas(s: State, list: seq<Node>, t: nat, n: Node)
    requires At(s, list, t, n) && s.threads[t].GetCas? && s.head == Some(n)
    requires list != [] && list[0] == n && n !in list[1..]
    ensures StepOk(s, Execute(s, t), list, list[1..], t, n)
  {
    assert list == [n] + list[1..];
    Totals(s, Execute(s, t), t, GetCheck(n), n);
  }

  lemma AtGetDrop(s: State, list: seq<Node>, t: nat, n: Node)
    requires At(s, list, t, n) && s.threads[t].GetDrop?
    ensures StepOk(s, Execute(s, t), list, list, t, n)
  {
    Totals(s, Execute(s, t), t, Idle, n);
  }

  /** Whoever drops the last reference of a flagged node becomes the one thread that links it. */
  lemma AtGetUnref(s: State, list: seq<Node>, t: nat, n: Node)
    requires At(s, list, t, n) && s.threads[t].GetUnref?
    ensures StepOk(s, Execute(s, t), list, list, t, n)
  {
    Totals(s, Execute(s, t), t, Execute(s, t).threads[t], n);
  }

  // ----- Every run -----

  lemma PreserveCallAdd(s: State, list: seq<Node>, t: nat, n: Node)
    requires Inv(s, list) && Enabled(s, CallAdd(t, n))
    ensures Inv(Step(s, CallAdd(t, n)), list)
  {
    assert NodeOk(s, list, n);
    AtCallAdd(s, list, t, n);
    ComposeOffList(s, Step(s, CallAdd(t, n)), list, t, n);
  }

  /** The steps of thread pc that write a word or a next pointer. */
  predicate WritesCell(s: State, pc: Pc) {
    || pc.AddSet? || pc.PushNext? || pc.PushRefs? || pc.PushUndo? || pc.GetDrop? || pc.GetUnref?
    || (pc.GetRef? && pc.node in s.cells && s.cells[pc.node].refs == pc.refs)
  }

  lemma PreserveWrite(s: State, list: seq<Node>, t: nat)
    requires Inv(s, list) && t < |s.threads| && WritesCell(s, s.threads[t])
    ensures Enabled(s, Run(t)) && Inv(Execute(s, t), list)
  {
    var n := s.threads[t].node;
    assert PcOk(s, s.threads[t]) && NodeOk(s, list, n) && Known(s, s.cells[n].next);
    match s.threads[t]
    case AddSet(_) => AtAddSet(s, list, t, n); ComposeOffList(s, Execute(s, t), list, t, n);
    case PushNext(_, _, _) => AtPushNext(s, list, t, n); ComposeOffList(s, Execute(s, t), list, t, n);
    case PushRefs(_, _, _) => AtPushRefs(s, list, t, n); ComposeOffList(s, Execute(s, t), list, t, n);
    case PushUndo(_, _, _) => AtPushUndo(s, list, t, n); ComposeOffList(s, Execute(s, t), list, t, n);
    case GetDrop(_) => AtGetDrop(s, list, t, n); ComposeOffList(s, Execute(s, t), list, t, n);
    case GetUnref(_, _) => AtGetUnref(s, list, t, n); ComposeOffList(s, Execute(s, t), list, t, n);
    case GetRef(_, _) => AtGetRef(s, list, t, n); ComposeOffList(s, Execute(s, t), list, t, n);
  }

  lemma PreservePush(s: State, list: seq<Node>, t: nat)
    requires Inv(s, list) && t < |s.threads| && s.threads[t].PushCas? && s.head == s.threads[t].head
    ensures Enabled(s, Run(t)) && Inv(Execute(s, t), [s.threads[t].node] + list)
  {
    var n := s.threads[t].node;
    assert PcOk(s, s.threads[t]) && NodeOk(s, list, n) && Known(s, s.cells[n].next);
    AtPushCas(s, list, t, n);
    ChainPush(s, Execute(s, t), list, n);
    Compose(s, Execute(s, t), list, [n] + list, t, n);
  }

  /** The compare-exchange in try_get takes the first node off the chain and leaves the rest. */
  lemma PreserveTake(s: State, list: seq<Node>, t: nat)
    requires Inv(s, list) && t < |s.threads| && s.threads[t].GetCas? && s.head == Some(s.threads[t].node)
    ensures Enabled(s, Run(t))
    ensures list != [] && list[0] == s.threads[t].node && Inv(Execute(s, t), list[1..])
  {
    var n := s.threads[t].node;
    assert PcOk(s, s.threads[t]) && NodeOk(s, list, n) && Known(s, s.cells[n].next);
    AtGetCas(s, list, t, n);
    ChainPop(s, Execute(s, t), list);
    Compose(s, Execute(s, t), list, list[1..], t, n);
  }

  /** Steps of add that only read. */
  lemma PreserveAddRead(s: State, list: seq<Node>, t: nat)
    requires Inv(s, list) && Enabled(s, Run(t))
    requires s.threads[t].PushLoad? || (s.threads[t].PushCas? && s.head != s.threads[t].head)
    ensures Inv(Execute(s, t), list)
  {
    var pc := s.threads[t];
    assert PcOk(s, pc) && Known(s, s.head);
    match pc
    case PushLoad(n, after) => PreserveLocal(s, list, t, PushNext(n, s.head, after));
    case PushCas(n, _, after) => PreserveLocal(s, list, t, PushUndo(n, s.head, after));
  }

  /** Steps of try_get's loop head that only read. */
  lemma PreserveLoopRead(s: State, list: seq<Node>, t: nat)
    requires Inv(s, list) && Enabled(s, Run(t)) && !WritesCell(s, s.threads[t])
    requires s.threads[t].GetLoad? || s.threads[t].GetRefs? || s.threads[t].GetRef?
    ensures Inv(Execute(s, t), list)
  {
    var pc := s.threads[t];
    assert PcOk(s, pc);
    match pc
    case GetLoad => PreserveLocal(s, list, t, LoopAt(s.head));
    case GetRefs(n) =>
      PreserveLocal(s, list, t, if Masked(s.cells[n].refs) == 0 then GetLoad else GetRef(n, s.cells[n].refs));
    case GetRef(_, _) => PreserveLocal(s, list, t, GetLoad);
  }

  lemma PreserveTakeFails(s: State, list: seq<Node>, t: nat)
    requires Inv(s, list) && Enabled(s, Run(t)) && s.threads[t].GetCas? && s.head != Some(s.threads[t].node)
    ensures Inv(Execute(s, t), list)
  {
    assert PcOk(s, s.threads[t]) && Known(s, s.head);
    PreserveLocal(s, list, t, GetUnref(s.threads[t].node, s.head));
  }

  /** Steps of try_get that only read while it holds a reference. */
  lemma PreserveGetRead(s: State, list: seq<Node>, t: nat)
    requires Inv(s, list) && Enabled(s, Run(t)) && (s.threads[t].GetNext? || s.threads[t].GetCheck?)
    ensures Inv(Execute(s, t), list)
  {
    var n := s.threads[t].node;
    assert PcOk(s, s.threads[t]);
    PreserveLocal(s, list, t, if s.threads[t].GetCheck? then GetDrop(n) else GetCas(n, s.cells[n].next));
  }

  lemma PreserveStep(s: State, list: seq<Node>, a: Action) returns (list': seq<Node>)
    requires Inv(s, list) && Enabled(s, a)
    ensures Inv(Step(s, a), list')
  {
    list' := list;
    match a
    case Create(n) => PreserveCreate(s, list, n);
    case CallAdd(t, n) => PreserveCallAdd(s, list, t, n);
    case CallTryGet(t) => PreserveLocal(s, list, t, GetLoad);
    case Run(t) =>
      var pc := s.threads[t];
      if pc.PushCas? && s.head == pc.head {
        list' := [pc.node] + list;
        PreservePush(s, list, t);
      } else if pc.GetCas? && s.head == Some(pc.node) {
        list' := list[1..];
        PreserveTake(s, list, t);
      } else if WritesCell(s, pc) {
        PreserveWrite(s, list, t);
      } else if pc.PushLoad? || pc.PushCas? {
        PreserveAddRead(s, list, t);
      } else if pc.GetLoad? || pc.GetRefs? || pc.GetRef? {
        PreserveLoopRead(s, list, t);
      } else if pc.GetCas? {
        PreserveTakeFails(s, list, t);
      } else {
        PreserveGetRead(s, list, t);
      }
  }

  /** The list as constructed: empty, no node known, every thread outside its operations. */
  ghost predicate Init(s: State) {
    && s.head == None && s.cells == map[] && s.owned == {}
    && |s.threads| + 2 <= SHOULD_BE_ON_FREELIST
    && forall t :: 0 <= t < |s.threads| ==> s.threads[t] == Idle
  }

  ghost predicate Follows(p: State, a: Action, s: State) {
    Enabled(p, a) && s == Step(p, a)
  }

  /** s is reached from the constructed list by the actions of `run`, in that order. */
  ghost predicate Reaches(run: Trace<Action>, s: State) {
    match run
    case Start => Init(s)
    case Then(before, a) => exists p :: Reaches(before, p) && Follows(p, a, s)
  }

  ghost predicate Reachable(s: State) {
    exists run :: Reaches(run, s)
  }

  lemma {:induction false} RunInv(run: Trace<Action>, s: State) returns (list: seq<Node>)
    requires Reaches(run, s)
    ensures Inv(s, list)
  {
    match run
    case Start => list := [];
    case Then(before, a) =>
      var p :| Reaches(before, p) && Follows(p, a, s);
      var earlier := RunInv(before, p);
      list := PreserveStep(p, earlier, a);
  }

  /** In every reachable state the linked nodes form one finite chain without repetition, and every node
      is exactly one of: in a client's hands, on that chain once, in the keeping of exactly one thread, or
      flagged with a reference outstanding. */
  lemma EveryNodeInOnePlace(s: State) returns (list: seq<Node>)
    requires Reachable(s)
    ensures Chain(s, list)
    ensures forall n :: n in s.cells ==>
      One(n in s.owned) + One(n in list) + Keepers(s, n) + One(Flagged(s, n)) == 1
    ensures forall n :: n in s.cells && Flagged(s, n) ==>
      exists t :: 0 <= t < |s.threads| && Weight(s.threads[t], n) > 0
  {
    var run :| Reaches(run, s);
    list := RunInv(run, s);
    forall n | n in s.cells
      ensures One(n in s.owned) + One(n in list) + Keepers(s, n) + One(Flagged(s, n)) == 1
      ensures Flagged(s, n) ==> exists t :: 0 <= t < |s.threads| && Weight(s.threads[t], n) > 0
    {
      assert NodeOk(s, list, n);
      if Flagged(s, n) {
        var t := SumPositive(WeightOf(n), s.threads);
      }
    }
  }

  /** No thread ever touches a node that does not exist. */
  lemma NeverStuck(s: State, t: nat)
    requires Reachable(s) && t < |s.threads| && !s.threads[t].Idle?
    ensures Enabled(s, Run(t))
  {
    var run :| Reaches(run, s);
    var list := RunInv(run, s);
    assert PcOk(s, s.threads[t]);
  }

  /** While a thread holds a reference to n, no step of anyone changes n's next pointer. */
  lemma NextIsFrozen(s: State, t: nat, a: Action)
    requires Reachable(s) && t < |s.threads| && CarriesOwnRef(s.threads[t]) && Enabled(s, a)
    ensures s.threads[t].node in s.cells && s.threads[t].node in Step(s, a).cells
    ensures Step(s, a).cells[s.threads[t].node].next == s.cells[s.threads[t].node].next
  {
    var run :| Reaches(run, s);
    var list := RunInv(run, s);
    var n := s.threads[t].node;
    assert PcOk(s, s.threads[t]) && NodeOk(s, list, n);
    if a.Run? && s.threads[a.t].PushNext? && s.threads[a.t].node == n {
      assert PcOk(s, s.threads[a.t]);
      SumUpdate(WeightOf(n), s.threads, t, Idle);
      assert false;
    }
  }

  /** The head compare-exchange of try_get never suffers ABA: when it succeeds, the next pointer read
      before is the link of the first node now, and exactly that node leaves the chain. */
  lemma NoAba(s: State, t: nat, list: seq<Node>)
    requires Reachable(s) && t < |s.threads| && s.threads[t].GetCas? && s.head == Some(s.threads[t].node)
    requires Chain(s, list)
    ensures Enabled(s, Run(t)) && list != [] && list[0] == s.threads[t].node
    ensures s.cells[list[0]].next == s.threads[t].next
    ensures Chain(Step(s, Run(t)), list[1..])
  {
    var run :| Reaches(run, s);
    var own := RunInv(run, s);
    ChainUnique(s, own, list);
    assert PcOk(s, s.threads[t]);
    PreserveTake(s, list, t);
  }

  /** The links determine the chain. */
  lemma {:induction false} ChainUnique(s: State, a: seq<Node>, b: seq<Node>)
    requires Chain(s, a) && Chain(s, b)
    ensures a == b
  {
    PrefixSame(s, a, b, |a|);
  }

  lemma {:induction false} PrefixSame(s: State, a: seq<Node>, b: seq<Node>, k: nat)
    requires Chain(s, a) && Chain(s, b) && k <= |a|
    ensures k <= |b| && a[..k] == b[..k] && LinkAt(a, k) == LinkAt(b, k)
  {
    if k > 0 {
      PrefixSame(s, a, b, k - 1);
      assert LinkOk(s, a, k - 1) && LinkOk(s, b, k - 1);
      assert a[..k] == a[..k - 1] + [a[k - 1]] && b[..k] == b[..k - 1] + [b[k - 1]];
    }
  }

  /** The assertion in try_get: the flag of a node just taken is clear. */
  lemma TakenNodeIsNotFlagged(s: State, t: nat)
    requires Reachable(s) && t < |s.threads| && s.threads[t].GetCheck?
    ensures s.threads[t].node in s.cells
    ensures s.cells[s.threads[t].node].refs < SHOULD_BE_ON_FREELIST
  {
    var run :| Reaches(run, s);
    var list := RunInv(run, s);
    assert PcOk(s, s.threads[t]);
  }

  /** A node is handed out to one client only: when try_get returns it, nobody owns it, no other thread is
      adding or returning it, and it is not on the list. */
  lemma HandedOutOnce(s: State, t: nat, u: nat)
    requires Reachable(s) && t < |s.threads| && s.threads[t].GetDrop?
    ensures s.threads[t].node !in s.owned
    ensures u < |s.threads| && u != t ==> Keeps(s.threads[u], s.threads[t].node) == 0
    ensures forall list :: Chain(s, list) ==> s.threads[t].node !in list
    ensures Enabled(s, Run(t)) && Step(s, Run(t)).owned == s.owned + {s.threads[t].node}
  {
    var run :| Reaches(run, s);
    var list := RunInv(run, s);
    var n := s.threads[t].node;
    assert PcOk(s, s.threads[t]) && NodeOk(s, list, n);
    SumUpdate(KeepsOf(n), s.threads, t, Idle);
    forall other | Chain(s, other) ensures n !in other { ChainUnique(s, list, other); }
    if u < |s.threads| && u != t { Others(s, t, u, n); }
  }

  /** When every thread is outside its operations nothing is lost: each node is in a client's hands or on
      the list, never both, and no count or flag is left over. */
  lemma NothingLost(s: State) returns (list: seq<Node>)
    requires Reachable(s) && forall t :: 0 <= t < |s.threads| ==> s.threads[t].Idle?
    ensures Chain(s, list)
    ensures forall n :: n in s.cells ==> (n in s.owned <==> n !in list)
    ensures forall n :: n in s.cells ==> s.cells[n].refs == One(n in list)
  {
    var run :| Reaches(run, s);
    list := RunInv(run, s);
    forall n | n in s.cells ensures (n in s.owned <==> n !in list) && s.cells[n].refs == One(n in list) {
      assert NodeOk(s, list, n);
      SumZero(WeightOf(n), s.threads);
      SumZero(KeepsOf(n), s.threads);
    }
  }

  /** A thread in try_get that has just loaded the head leaves at once exactly if the chain is empty. */
  lemma LeavesWhenEmpty(s: State, t: nat, list: seq<Node>)
    requires Reachable(s) && t < |s.threads| && s.threads[t].GetLoad? && Chain(s, list)
    ensures Enabled(s, Run(t))
    ensures Step(s, Run(t)).threads[t].Idle? <==> list == []
  {
    NeverStuck(s, t);
  }

  /** A thread is in try_get, perhaps completing another thread's add on its way. */
  predicate Searching(pc: Pc) {
    match pc
    case Idle => false
    case AddSet(_) => false
    case PushLoad(_, after) => after.Resume?
    case PushNext(_, _, after) => after.Resume?
    case PushRefs(_, _, after) => after.Resume?
    case PushCas(_, _, after) => after.Resume?
    case PushUndo(_, _, after) => after.Resume?
    case _ => true
  }

  /** The head that try_get goes on with is null, as a failed compare-exchange has reloaded it. */
  predicate SeesNone(pc: Pc) {
    match pc
    case PushLoad(_, after) => after == Resume(None)
    case PushNext(_, _, after) => after == Resume(None)
    case PushRefs(_, _, after) => after == Resume(None)
    case PushCas(_, _, after) => after == Resume(None)
    case PushUndo(_, _, after) => after == Resume(None)
    case GetUnref(_, head) => head == None
    case _ => false
  }

  ghost predicate Empty(s: State) { Chain(s, []) }

  /** At some step of the run since thread t called try_get, the chain was empty. */
  ghost predicate WasEmpty(run: Trace<Action>, s: State, t: nat)
    decreases run, 0
  {
    match run
    case Start => false
    case Then(before, a) => exists p :: Reaches(before, p) && Follows(p, a, s) && EmptyBy(before, p, t)
  }

  ghost predicate EmptyBy(run: Trace<Action>, s: State, t: nat)
    decreases run, 1
  {
    t < |s.threads| && Searching(s.threads[t]) && (Empty(s) || WasEmpty(run, s, t))
  }

  /** try_get returns nothing only if the chain was empty at some moment during the call. */
  lemma EmptyHandedOnlyWhenEmpty(run: Trace<Action>, s: State, t: nat)
    requires Reaches(run, s) && t < |s.threads| && Searching(s.threads[t]) && Enabled(s, Run(t))
    requires Step(s, Run(t)).threads[t].Idle? && Step(s, Run(t)).owned == s.owned
    ensures Empty(s) || WasEmpty(run, s, t)
  {
    if SeesNone(s.threads[t]) {
      NoneWasSeen(run, s, t);
    } else if s.threads[t].GetDrop? {
      HandedOutOnce(s, t, t);
    }
  }

  lemma {:induction false} NoneWasSeen(run: Trace<Action>, s: State, t: nat)
    requires Reaches(run, s) && t < |s.threads| && SeesNone(s.threads[t])
    ensures WasEmpty(run, s, t)
  {
    match run
    case Start =>
    case Then(before, a) =>
      var p :| Reaches(before, p) && Follows(p, a, s);
      NoneSeenNow(p, a, t);
      if SeesNone(p.threads[t]) { NoneWasSeen(before, p, t); }
      assert EmptyBy(before, p, t);
  }

  lemma NoneSeenNow(p: State, a: Action, t: nat)
    requires Enabled(p, a) && t < |Step(p, a).threads| && SeesNone(Step(p, a).threads[t])
    ensures t < |p.threads| && Searching(p.threads[t]) && (Empty(p) || SeesNone(p.threads[t]))
  {}
}
