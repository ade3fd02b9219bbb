/**
 The multi-producer, single-consumer linked queue of include/evhtp/mpsc-queue.h.

 The queue is a step machine: one atomic load, store or exchange per step, any number of
 producers, any interleaving. The atomics are taken as sequentially consistent.

 Three history variables are written and never read by the code's own steps:
  - `order` lists every node ever exchanged into `head` (the stub each time it goes back in),
    and `front` is the position in it of the node `tail` points to, so `order[front..]` is the
    chain from tail to head, half-linked or not;
  - `batches` lists the inserted lists in exchange order, `returned` what poll handed out;
  - `overlap` says that a producer was between its exchange and its link at some moment of the
    current (or last) consumer call, and `atStart` is the queue that call started from.
 */
module MpscQueue {
  import opened Prelude

  type Node = nat

  /** `&queue->stub`. */
  const STUB: Node := 0

  datatype Ptr = Null | At(node: Node)

  datatype PollResult = Empty | Item(node: Node) | Retry

  /** Where a producer is: the constructor names the atomic operation it does next. */
  datatype ProducerPc =
    | Ready
    | LinkBatch(list: seq<Node>, i: nat)
    | StoreNull(list: seq<Node>)
    | Exchange(list: seq<Node>)
    | Link(first: Node, prev: Node, at: int)

  /** Who owes the link out of a position of `order`. */
  datatype Owner = Producer(p: nat) | Consumer

  /** Where the consumer is. `at` in StubLink is the position of `prev` in `order`. */
  datatype ConsumerPc =
    | Idle
    | LoadNext(tail: Node)
    | LoadHeadAtStub
    | SkipStub(next: Node)
    | ReloadNext(tail: Node)
    | Advance(tail: Node, next: Node)
    | LoadHead(tail: Node)
    | StubStore(tail: Node)
    | StubExchange(tail: Node)
    | StubLink(tail: Node, prev: Node, at: int)
    | FinalNext(tail: Node)
    | FinalAdvance(tail: Node, next: Node)
    | Polled(result: PollResult)
    | EmptyNext(tail: Node)
    | EmptyHead(tail: Node, seen: Ptr)
    | Checked(empty: bool)

  datatype State = State(
    next: map<Node, Ptr>,
    head: Node,
    tail: Node,
    producers: seq<ProducerPc>,
    consumer: ConsumerPc,
    order: seq<Node>,
    front: nat,
    owed: map<int, Owner>,
    holder: map<Node, nat>,
    batches: seq<seq<Node>>,
    returned: seq<Node>,
    overlap: bool,
    atStart: seq<Node>)

  datatype Action =
    | InsertList(p: nat, list: seq<Node>)
    | InsertBatch(p: nat, list: seq<Node>)
    | Produce(p: nat)
    | StartPoll
    | StartIsEmpty
    | Consume

  // ---------------------------------------------------------------------------------------
  // The steps
  // ---------------------------------------------------------------------------------------

  function Load(next: map<Node, Ptr>, n: Node): Ptr {
    if n in next then next[n] else Null
  }

  function Init(producers: nat): State {
    State(map[STUB := Null], STUB, STUB, seq(producers, _ => Ready), Idle, [STUB], 0, map[], map[], [], [], false, [])
  }

  /** The nodes a producer still holds: it has not exchanged them in yet. */
  function Held(pc: ProducerPc): seq<Node> {
    match pc
    case LinkBatch(list, _) => list
    case StoreNull(list) => list
    case Exchange(list) => list
    case _ => []
  }

  /** What a caller owes: the nodes are its own, so not in the queue and in no other insert. */
  ghost predicate Owned(s: State, list: seq<Node>) {
    && Distinct(list)
    && (forall i :: 0 <= i < |list| ==> list[i] != STUB)
    && (forall i, j :: 0 <= i < |list| && s.front <= j < |s.order| ==> list[i] != s.order[j])
    && (forall i, p :: 0 <= i < |list| && 0 <= p < |s.producers| ==> list[i] !in Held(s.producers[p]))
  }

  /** The first `n` links of a list are in place. */
  ghost predicate LinkedUpTo(next: map<Node, Ptr>, list: seq<Node>, n: int) {
    forall i, j :: 0 <= i < n && j == i + 1 < |list| ==> Load(next, list[i]) == At(list[j])
  }

  ghost predicate ConsumerFree(s: State) {
    s.consumer.Idle? || s.consumer.Polled? || s.consumer.Checked?
  }

  ghost predicate Enabled(s: State, a: Action) {
    match a
    case InsertList(p, list) =>
      p < |s.producers| && s.producers[p].Ready? && list != [] && Owned(s, list) && LinkedUpTo(s.next, list, |list|)
    case InsertBatch(p, list) => p < |s.producers| && s.producers[p].Ready? && Owned(s, list)
    case Produce(p) => p < |s.producers| && !s.producers[p].Ready?
    case StartPoll => ConsumerFree(s)
    case StartIsEmpty => ConsumerFree(s)
    case Consume => !ConsumerFree(s)
  }

  /** mpsc_queue_insert_batch up to its first atomic operation. */
  function StartBatch(list: seq<Node>): ProducerPc {
    if |list| == 0 then Ready else if |list| == 1 then StoreNull(list) else LinkBatch(list, 0)
  }

  function StartInsert(s: State, p: nat, pc: ProducerPc): State
    requires p < |s.producers|
  {
    s.(producers := s.producers[p := pc], holder := s.holder + map n | n in Held(pc) :: p)
  }

  /** One atomic operation of producer p. */
  function ProduceStep(s: State, p: nat): State
    requires p < |s.producers|
  {
    match s.producers[p]
    case Ready => s
    case LinkBatch(list, i) =>
      if i + 1 < |list| then
        s.(next := s.next[list[i] := At(list[i + 1])],
           producers := s.producers[p := if i + 2 < |list| then LinkBatch(list, i + 1) else StoreNull(list)])
      else s
    case StoreNull(list) =>
      if list == [] then s else
      s.(next := s.next[list[|list| - 1] := Null], producers := s.producers[p := Exchange(list)])
    case Exchange(list) =>
      if list == [] then s else
      s.(head := list[|list| - 1],
         producers := s.producers[p := Link(list[0], s.head, |s.order| - 1)],
         order := s.order + list,
         owed := s.owed[|s.order| - 1 := Producer(p)],
         batches := s.batches + [list],
         overlap := s.overlap || !(s.consumer.Idle? || s.consumer.Polled? || s.consumer.Checked?))
    case Link(first, prev, at) =>
      s.(next := s.next[prev := At(first)], producers := s.producers[p := Ready], owed := s.owed - {at})
  }

  /** Where a load takes the consumer. */
  function AfterLoad(s: State): ConsumerPc {
    match s.consumer
    case LoadNext(t) =>
      var n := Load(s.next, t);
      if t == STUB then (if n.Null? then LoadHeadAtStub else SkipStub(n.node))
      else (if n.Null? then LoadHead(t) else Advance(t, n.node))
    case LoadHeadAtStub => Polled(if s.head != STUB then Retry else Empty)
    case ReloadNext(t) =>
      var n := Load(s.next, t);
      if n.Null? then LoadHead(t) else Advance(t, n.node)
    case LoadHead(t) => if t != s.head then Polled(Retry) else StubStore(t)
    case FinalNext(t) =>
      var n := Load(s.next, t);
      if n.Null? then Polled(Retry) else FinalAdvance(t, n.node)
    case EmptyNext(t) => EmptyHead(t, Load(s.next, t))
    case EmptyHead(t, n) => Checked(t == STUB && n.Null? && t == s.head)
    case pc => pc
  }

  function TakeTail(s: State, t: Node, n: Node): State {
    s.(tail := n, front := s.front + 1, returned := s.returned + [t], consumer := Polled(Item(t)))
  }

  /** One atomic operation of the consumer. */
  function ConsumeStep(s: State): State {
    match s.consumer
    case SkipStub(n) => s.(tail := n, front := s.front + 1, consumer := ReloadNext(n))
    case Advance(t, n) => TakeTail(s, t, n)
    case FinalAdvance(t, n) => TakeTail(s, t, n)
    case StubStore(t) => s.(next := s.next[STUB := Null], consumer := StubExchange(t))
    case StubExchange(t) =>
      s.(head := STUB, consumer := StubLink(t, s.head, |s.order| - 1), order := s.order + [STUB],
         owed := s.owed[|s.order| - 1 := Consumer])
    case StubLink(t, prev, at) =>
      s.(next := s.next[prev := At(STUB)], consumer := FinalNext(t), owed := s.owed - {at})
    case _ => s.(consumer := AfterLoad(s))
  }

  ghost predicate AnyLink(s: State) {
    exists p :: 0 <= p < |s.producers| && s.producers[p].Link?
  }

  /** The load of `tail` that opens a consumer call; `pc` is where the call goes next. */
  ghost function StartCall(s: State, pc: ConsumerPc): State {
    s.(consumer := pc, overlap := AnyLink(s), atStart := Contents(s))
  }

  ghost function Next(s: State, a: Action): State
    requires Enabled(s, a)
  {
    match a
    case InsertList(p, list) => StartInsert(s, p, StoreNull(list))
    case InsertBatch(p, list) => StartInsert(s, p, StartBatch(list))
    case Produce(p) => ProduceStep(s, p)
    case StartPoll => StartCall(s, LoadNext(s.tail))
    case StartIsEmpty => StartCall(s, EmptyNext(s.tail))
    case Consume => ConsumeStep(s)
  }

  /** A producer's step leaves the consumer and the other producers where they are. */
  lemma {:induction false} ProduceFrame(s: State, p: nat)
    requires p < |s.producers|
    ensures var s' := ProduceStep(s, p);
      && s'.consumer == s.consumer && |s'.producers| == |s.producers|
      && (forall q :: 0 <= q < |s.producers| && q != p ==> s'.producers[q] == s.producers[q])
      && (s'.overlap == s.overlap || (s.producers[p].Exchange? && s'.producers[p].Link?))
  {
  }

  /** The steps that take a node end the poll with it; no other step answers ITEM. */
  lemma {:induction false} TakeMeansItem(s: State)
    requires !ConsumerFree(s)
    ensures
      if s.consumer.Advance? || s.consumer.FinalAdvance?
      then ConsumeStep(s).consumer == Polled(Item(s.consumer.tail))
      else !(ConsumeStep(s).consumer.Polled? && ConsumeStep(s).consumer.result.Item?)
  {
    LoadIsNoItem(s);
  }

  lemma {:induction false} LoadIsNoItem(s: State)
    requires !ConsumerFree(s)
    ensures !(AfterLoad(s).Polled? && AfterLoad(s).result.Item?)
  {
  }

  /** The consumer is in mpsc_queue_is_empty, or has not been called yet. */
  predicate NotPolling(pc: ConsumerPc) {
    pc.Idle? || pc.EmptyNext? || pc.EmptyHead? || pc.Checked?
  }

  /** The consumer's step leaves the producers where they are and stays in its call. */
  lemma {:induction false} ConsumeFrame(s: State)
    ensures ConsumeStep(s).producers == s.producers && ConsumeStep(s).overlap == s.overlap
  {
  }

  lemma {:induction false} ConsumeStays(s: State)
    requires !NotPolling(s.consumer)
    ensures !NotPolling(ConsumeStep(s).consumer)
  {
    LoadStays(s);
  }

  lemma {:induction false} LoadStays(s: State)
    requires !NotPolling(s.consumer)
    ensures !NotPolling(AfterLoad(s))
  {
  }

  // ---------------------------------------------------------------------------------------
  // The abstract queue
  // ---------------------------------------------------------------------------------------

  function NonStub(s: seq<Node>): seq<Node> {
    if s == [] then [] else (if s[0] == STUB then [] else [s[0]]) + NonStub(s[1..])
  }

  function Flatten(lists: seq<seq<Node>>): seq<Node> {
    if lists == [] then [] else lists[0] + Flatten(lists[1..])
  }

  /** The nodes from tail to head, the stub included. */
  function Chain(s: State): seq<Node> {
    if s.front <= |s.order| then s.order[s.front..] else []
  }

  function Queued(order: seq<Node>, front: nat): seq<Node> {
    if front <= |order| then NonStub(order[front..]) else []
  }

  /** The abstract queue: the chain without the stub. */
  function Contents(s: State): seq<Node> {
    Queued(s.order, s.front)
  }

  lemma {:induction false} NonStubConcat(a: seq<Node>, b: seq<Node>)
    ensures NonStub(a + b) == NonStub(a) + NonStub(b)
  {
    if a == [] {
      assert a + b == b;
    } else {
      assert (a + b)[1..] == a[1..] + b;
      NonStubConcat(a[1..], b);
    }
  }

  lemma {:induction false} NonStubId(a: seq<Node>)
    requires forall i :: 0 <= i < |a| ==> a[i] != STUB
    ensures NonStub(a) == a
  {
    if a != [] {
      NonStubId(a[1..]);
    }
  }

  lemma {:induction false} QueuedAppend(order: seq<Node>, front: nat, list: seq<Node>)
    requires front <= |order|
    ensures Queued(order + list, front) == Queued(order, front) + NonStub(list)
    ensures NonStub(order + list) == NonStub(order) + NonStub(list)
    ensures (order + list)[..front] == order[..front]
  {
    assert (order + list)[front..] == order[front..] + list;
    NonStubConcat(order[front..], list);
    NonStubConcat(order, list);
  }

  /** Moving the front over one node takes it off the queue and puts it on the returned part. */
  lemma {:induction false} QueuedDrop(order: seq<Node>, front: nat)
    requires front < |order|
    ensures var one := if order[front] == STUB then [] else [order[front]];
      && Queued(order, front) == one + Queued(order, front + 1)
      && NonStub(order[..front + 1]) == NonStub(order[..front]) + one
  {
    assert order[front..][1..] == order[front + 1..];
    assert order[..front + 1] == order[..front] + [order[front]];
    NonStubConcat(order[..front], [order[front]]);
    assert NonStub([order[front]][1..]) == [];
  }

  lemma {:induction false} NonStubKeeps(a: seq<Node>, j: nat)
    requires j < |a| && a[j] != STUB
    ensures a[j] in NonStub(a)
  {
    if j > 0 {
      NonStubKeeps(a[1..], j - 1);
    }
  }

  lemma {:induction false} InContents(s: State, j: nat)
    requires s.front <= j < |s.order| && s.order[j] != STUB
    ensures s.order[j] in Contents(s)
  {
    NonStubKeeps(s.order[s.front..], j - s.front);
  }

  lemma {:induction false} FlattenSnoc(lists: seq<seq<Node>>, l: seq<Node>)
    ensures Flatten(lists + [l]) == Flatten(lists) + l
  {
    if lists == [] {
      assert lists + [l] == [l];
      assert Flatten([l][1..]) == [];
    } else {
      assert (lists + [l])[1..] == lists[1..] + [l];
      FlattenSnoc(lists[1..], l);
    }
  }

  // ---------------------------------------------------------------------------------------
  // The invariant
  // ---------------------------------------------------------------------------------------

  ghost predicate Ends(s: State) {
    && s.front < |s.order|
    && s.tail == s.order[s.front]
    && s.head == s.order[|s.order| - 1]
    && Load(s.next, s.head) == Null
  }

  ghost predicate ChainDistinct(s: State) {
    forall i, j :: s.front <= i < j < |s.order| ==> s.order[i] != s.order[j]
  }

  /** Each link of the chain is in place, or NULL and owed by an insert in flight. */
  ghost predicate Links(s: State) {
    forall k, k' :: s.front <= k && k' == k + 1 < |s.order| ==>
      || Load(s.next, s.order[k]) == At(s.order[k'])
      || (Load(s.next, s.order[k]) == Null && k in s.owed)
  }

  ghost predicate PendingLink(s: State, first: Node, prev: Node, at: int) {
    && s.front <= at && at + 1 < |s.order|
    && s.order[at] == prev && s.order[at + 1] == first
    && Load(s.next, prev) == Null
  }

  /** The inserts between exchange and link are exactly the owners of the owed links. */
  ghost predicate Pending(s: State) {
    && (forall p :: 0 <= p < |s.producers| && s.producers[p].Link? ==>
      && s.producers[p].at in s.owed && s.owed[s.producers[p].at] == Producer(p)
      && PendingLink(s, s.producers[p].first, s.producers[p].prev, s.producers[p].at))
    && (s.consumer.StubLink? ==>
      && s.consumer.at in s.owed && s.owed[s.consumer.at] == Consumer
      && PendingLink(s, STUB, s.consumer.prev, s.consumer.at))
    && (forall k :: k in s.owed ==>
      match s.owed[k]
      case Producer(p) => p < |s.producers| && s.producers[p].Link? && s.producers[p].at == k
      case Consumer => s.consumer.StubLink? && s.consumer.at == k)
  }

  ghost predicate HeldOk(s: State, pc: ProducerPc) {
    && Distinct(Held(pc))
    && (forall i :: 0 <= i < |Held(pc)| ==> Held(pc)[i] != STUB)
    && (forall i, j :: 0 <= i < |Held(pc)| && s.front <= j < |s.order| ==> Held(pc)[i] != s.order[j])
    && match pc
       case LinkBatch(list, i) => i + 1 < |list| && LinkedUpTo(s.next, list, i)
       case StoreNull(list) => list != [] && LinkedUpTo(s.next, list, |list|)
       case Exchange(list) => list != [] && LinkedUpTo(s.next, list, |list|) && Load(s.next, list[|list| - 1]) == Null
       case _ => true
  }

  ghost predicate Holdings(s: State) {
    && (forall p :: 0 <= p < |s.producers| ==> HeldOk(s, s.producers[p]))
    && (forall p, n :: 0 <= p < |s.producers| && n in Held(s.producers[p]) ==> n in s.holder && s.holder[n] == p)
  }

  ghost predicate StubAbsent(s: State) {
    forall i :: s.front <= i < |s.order| ==> s.order[i] != STUB
  }

  ghost predicate AtTail(s: State, t: Node) {
    t == s.tail && t != STUB
  }

  /** What the consumer's locals still say about the shared state. */
  ghost predicate Locals(s: State) {
    match s.consumer
    case Idle => true
    case Polled(_) => true
    case Checked(_) => true
    case LoadNext(t) => t == s.tail
    case LoadHeadAtStub => s.tail == STUB && (s.front + 1 < |s.order| ==> s.overlap)
    case SkipStub(n) => s.tail == STUB && Load(s.next, STUB) == At(n)
    case ReloadNext(t) => AtTail(s, t) && StubAbsent(s)
    case Advance(t, n) => AtTail(s, t) && Load(s.next, t) == At(n)
    case LoadHead(t) => AtTail(s, t) && (s.front + 1 < |s.order| ==> s.overlap)
    case StubStore(t) => AtTail(s, t) && StubAbsent(s)
    case StubExchange(t) => AtTail(s, t) && StubAbsent(s) && Load(s.next, STUB) == Null
    case StubLink(t, _, _) => AtTail(s, t)
    case FinalNext(t) => AtTail(s, t) && s.front + 1 < |s.order|
    case FinalAdvance(t, n) => AtTail(s, t) && Load(s.next, t) == At(n)
    case EmptyNext(t) => t == s.tail
    case EmptyHead(t, n) => t == s.tail && (n.At? ==> s.front + 1 < |s.order|)
  }

  /** An insert in flight during a consumer call is an overlap. */
  ghost predicate OverlapSeen(s: State) {
    !ConsumerFree(s) && AnyLink(s) ==> s.overlap
  }

  ghost predicate ChainOk(s: State) {
    Ends(s) && ChainDistinct(s) && Links(s) && Pending(s)
  }

  ghost predicate Shape(s: State) {
    ChainOk(s) && Holdings(s) && Locals(s) && OverlapSeen(s)
  }

  /** FIFO: what was returned, then what is queued, is what was inserted, batch after batch. */
  ghost predicate History(s: State) {
    && s.front <= |s.order|
    && NonStub(s.order) == Flatten(s.batches)
    && s.returned == NonStub(s.order[..s.front])
    && (!ConsumerFree(s) && !s.overlap ==> Contents(s) == s.atStart)
  }

  ghost predicate Inv(s: State) {
    Shape(s) && History(s)
  }

  // ---------------------------------------------------------------------------------------
  // Every step keeps the shape
  // ---------------------------------------------------------------------------------------

  /** A holding depends on the chain only through its nodes, and on `next` only at held nodes. */
  lemma {:induction false} HeldFrame(s: State, s': State, pc: ProducerPc)
    requires HeldOk(s, pc)
    requires forall n, j :: n in Held(pc) && s'.front <= j < |s'.order| ==> s'.order[j] != n
    requires forall n :: n in Held(pc) ==> Load(s'.next, n) == Load(s.next, n)
    ensures HeldOk(s', pc)
  {
    assert forall i :: 0 <= i < |Held(pc)| ==> Held(pc)[i] in Held(pc);
  }

  lemma {:induction false} HoldingsFrame(s: State, s': State)
    requires Holdings(s) && s'.producers == s.producers && s'.holder == s.holder
    requires forall j :: s'.front <= j < |s'.order| ==>
      s'.order[j] == STUB || (s.front <= j < |s.order| && s'.order[j] == s.order[j])
    requires forall p, n :: 0 <= p < |s.producers| && n in Held(s.producers[p]) ==> Load(s'.next, n) == Load(s.next, n)
    ensures Holdings(s')
  {
    forall p | 0 <= p < |s.producers|
      ensures HeldOk(s', s'.producers[p])
    {
      forall n | n in Held(s.producers[p]) ensures forall j :: s'.front <= j < |s'.order| ==> s'.order[j] != n {
        HeldOutsideChain(s, p, n);
      }
      HeldFrame(s, s', s.producers[p]);
    }
  }

  /** The chain depends on `next` only at its own nodes, and on producers only through owed links. */
  lemma {:induction false} ChainFrame(s: State, s': State)
    requires ChainOk(s)
    requires s'.order == s.order && s'.front == s.front && s'.head == s.head && s'.tail == s.tail && s'.owed == s.owed
    requires forall j :: s.front <= j < |s.order| ==> Load(s'.next, s.order[j]) == Load(s.next, s.order[j])
    requires |s'.producers| == |s.producers|
    requires forall p :: 0 <= p < |s.producers| && (s.producers[p].Link? || s'.producers[p].Link?) ==>
      s'.producers[p] == s.producers[p]
    requires s.consumer.StubLink? || s'.consumer.StubLink? ==> s'.consumer == s.consumer
    ensures ChainOk(s')
  {
  }

  /** What a producer's step must leave alone for the consumer's locals to stay true. */
  lemma {:induction false} LocalsFrame(s: State, s': State)
    requires Locals(s) && s.front < |s.order|
    requires s'.consumer == s.consumer && s'.tail == s.tail && s'.front == s.front && s.order <= s'.order
    requires s.overlap ==> s'.overlap
    requires |s.order| < |s'.order| && !ConsumerFree(s) ==> s'.overlap
    requires StubAbsent(s) ==> StubAbsent(s')
    requires Load(s.next, s.tail).At? ==> Load(s'.next, s.tail) == Load(s.next, s.tail)
    requires Load(s.next, STUB).At? || StubAbsent(s) ==> Load(s'.next, STUB) == Load(s.next, STUB)
    ensures Locals(s')
  {
  }

  lemma {:induction false} StartInsertShape(s: State, p: nat, pc: ProducerPc)
    requires Shape(s) && p < |s.producers| && s.producers[p].Ready?
    requires Owned(s, Held(pc)) && !pc.Link? && HeldOk(s, pc)
    ensures Shape(StartInsert(s, p, pc))
  {
    var s' := StartInsert(s, p, pc);
    StartInsertHoldings(s, p, pc);
    ChainFrame(s, s');
    LocalsFrame(s, s');
  }

  lemma {:induction false} StartInsertHeldOk(s: State, p: nat, pc: ProducerPc, held: ProducerPc)
    requires p < |s.producers| && HeldOk(s, held)
    ensures HeldOk(StartInsert(s, p, pc), held)
  {
  }

  lemma {:induction false} StartInsertHoldings(s: State, p: nat, pc: ProducerPc)
    requires Holdings(s) && p < |s.producers| && s.producers[p].Ready?
    requires Owned(s, Held(pc)) && HeldOk(s, pc)
    ensures Holdings(StartInsert(s, p, pc))
  {
    var s' := StartInsert(s, p, pc);
    forall q | 0 <= q < |s.producers|
      ensures HeldOk(s', s'.producers[q])
    {
      StartInsertHeldOk(s, p, pc, if q == p then pc else s.producers[q]);
    }
    hide HeldOk;
    forall q, n | 0 <= q < |s.producers| && n in Held(s'.producers[q])
      ensures n in s'.holder && s'.holder[n] == q
    {
      if q != p {
        assert n !in Held(pc);
      }
    }
  }

  lemma {:induction false} StartCallShape(s: State, pc: ConsumerPc)
    requires Shape(s) && ConsumerFree(s)
    requires pc == LoadNext(s.tail) || pc == EmptyNext(s.tail)
    ensures Shape(StartCall(s, pc))
  {
    var s' := StartCall(s, pc);
    HoldingsFrame(s, s');
    ChainFrame(s, s');
  }

  /** A store to a node outside the chain that only producer p holds. */
  lemma {:induction false} OwnStoreShape(s: State, p: nat, n: Node, v: Ptr, pc: ProducerPc)
    requires Shape(s) && p < |s.producers| && Held(s.producers[p]) == Held(pc)
    requires n in Held(pc) && !pc.Link? && !s.producers[p].Link?
    requires var s' := s.(next := s.next[n := v], producers := s.producers[p := pc]); HeldOk(s', pc)
    ensures Shape(s.(next := s.next[n := v], producers := s.producers[p := pc]))
  {
    var s' := s.(next := s.next[n := v], producers := s.producers[p := pc]);
    HeldOutsideChain(s, p, n);
    OwnStoreHoldings(s, p, n, v, pc);
    ChainFrame(s, s');
    LocalsFrame(s, s');
  }

  lemma {:induction false} HeldOutsideChain(s: State, p: nat, n: Node)
    requires Holdings(s) && p < |s.producers| && n in Held(s.producers[p])
    ensures n != STUB && forall j :: s.front <= j < |s.order| ==> s.order[j] != n
  {
    var i :| 0 <= i < |Held(s.producers[p])| && Held(s.producers[p])[i] == n;
    assert HeldOk(s, s.producers[p]);
  }

  lemma {:induction false} OwnStoreHoldings(s: State, p: nat, n: Node, v: Ptr, pc: ProducerPc)
    requires Holdings(s) && p < |s.producers| && Held(s.producers[p]) == Held(pc) && n in Held(pc)
    requires var s' := s.(next := s.next[n := v], producers := s.producers[p := pc]); HeldOk(s', pc)
    ensures Holdings(s.(next := s.next[n := v], producers := s.producers[p := pc]))
  {
    var s' := s.(next := s.next[n := v], producers := s.producers[p := pc]);
    forall q | 0 <= q < |s.producers| && q != p
      ensures HeldOk(s', s'.producers[q])
    {
      assert HeldOk(s, s.producers[q]);
      assert s.holder[n] == p;
      OtherStoreHeld(s, s', n, v, s.producers[q]);
    }
    hide HeldOk;
  }

  /** A store to a node a producer does not hold leaves what it holds in order. */
  lemma {:induction false} OtherStoreHeld(s: State, s': State, n: Node, v: Ptr, pc: ProducerPc)
    requires HeldOk(s, pc) && n !in Held(pc) && s'.next == s.next[n := v] && s'.front == s.front && s'.order == s.order
    ensures HeldOk(s', pc)
  {
    assert forall i :: 0 <= i < |Held(pc)| ==> Held(pc)[i] in Held(pc);
  }

  lemma {:induction false} LinkBatchShape(s: State, p: nat)
    requires Shape(s) && p < |s.producers| && s.producers[p].LinkBatch?
    ensures Shape(ProduceStep(s, p))
  {
    var pc := s.producers[p];
    assert HeldOk(s, pc);
    LinkBatchHeld(s, p);
    assert pc.list[pc.i] in pc.list;
    OwnStoreShape(s, p, pc.list[pc.i], At(pc.list[pc.i + 1]), ProduceStep(s, p).producers[p]);
  }

  lemma {:induction false} LinkBatchHeld(s: State, p: nat)
    requires p < |s.producers| && s.producers[p].LinkBatch? && HeldOk(s, s.producers[p])
    ensures var s' := ProduceStep(s, p); HeldOk(s', s'.producers[p])
  {
  }

  lemma {:induction false} StoreNullShape(s: State, p: nat)
    requires Shape(s) && p < |s.producers| && s.producers[p].StoreNull?
    ensures Shape(ProduceStep(s, p))
  {
    hide ChainOk, Locals, OverlapSeen;
    var list := s.producers[p].list;
    assert HeldOk(s, s.producers[p]);
    assert list[|list| - 1] in list;
    OwnStoreShape(s, p, list[|list| - 1], Null, Exchange(list));
  }

  lemma {:induction false} ExchangeChain(s: State, p: nat)
    requires ChainOk(s) && p < |s.producers| && s.producers[p].Exchange? && HeldOk(s, s.producers[p])
    ensures ChainOk(ProduceStep(s, p))
  {
    var s' := ProduceStep(s, p);
    var list := s.producers[p].list;
    var n := |s.order|;
    assert forall i :: 0 <= i < n ==> s'.order[i] == s.order[i];
    assert forall i :: n <= i < n + |list| ==> s'.order[i] == list[i - n];
    assert Ends(s') && ChainDistinct(s');
    ExchangePending(s, p);
    ExchangeLinks(s, p);
  }

  lemma {:induction false} ExchangePending(s: State, p: nat)
    requires Pending(s) && Ends(s) && p < |s.producers| && s.producers[p].Exchange? && s.producers[p].list != []
    ensures Pending(ProduceStep(s, p))
  {
    var s' := ProduceStep(s, p);
    assert forall i :: 0 <= i < |s.order| ==> s'.order[i] == s.order[i];
    assert s'.order[|s.order|] == s.producers[p].list[0];
  }

  lemma {:induction false} ExchangeLinks(s: State, p: nat)
    requires Links(s) && Ends(s) && p < |s.producers| && s.producers[p].Exchange?
    requires var list := s.producers[p].list; list != [] && LinkedUpTo(s.next, list, |list|)
    ensures Links(ProduceStep(s, p))
  {
    var s' := ProduceStep(s, p);
    var list := s.producers[p].list;
    var n := |s.order|;
    forall k, k' | s'.front <= k && k' == k + 1 < |s'.order|
      ensures
        || Load(s'.next, s'.order[k]) == At(s'.order[k'])
        || (Load(s'.next, s'.order[k]) == Null && k in s'.owed)
    {
      if k' < n {
        assert s'.order[k] == s.order[k] && s'.order[k'] == s.order[k'];
      } else if n <= k {
        assert s'.order[k] == list[k - n] && s'.order[k'] == list[k' - n];
      }
    }
  }

  lemma {:induction false} ExchangeShape(s: State, p: nat)
    requires Shape(s) && p < |s.producers| && s.producers[p].Exchange?
    ensures Shape(ProduceStep(s, p))
  {
    var s' := ProduceStep(s, p);
    assert HeldOk(s, s.producers[p]);
    ExchangeChain(s, p);
    ExchangeHoldings(s, p);
    LocalsFrame(s, s');
  }

  lemma {:induction false} ExchangeHoldings(s: State, p: nat)
    requires Holdings(s) && p < |s.producers| && s.producers[p].Exchange?
    ensures Holdings(ProduceStep(s, p))
  {
    var s' := ProduceStep(s, p);
    var list := s.producers[p].list;
    assert HeldOk(s, s.producers[p]);
    assert list != [];
    forall q | 0 <= q < |s.producers| && q != p
      ensures HeldOk(s', s'.producers[q])
    {
      ExchangeHeld(s, p, q);
    }
    assert Held(s'.producers[p]) == [];
    assert HeldOk(s', s'.producers[p]);
    hide HeldOk;
  }

  lemma {:induction false} ExchangeHeld(s: State, p: nat, q: nat)
    requires Holdings(s) && p < |s.producers| && s.producers[p].Exchange? && s.producers[p].list != []
    requires q < |s.producers| && q != p
    ensures HeldOk(ProduceStep(s, p), s.producers[q])
  {
    var s' := ProduceStep(s, p);
    var list := s.producers[p].list;
    assert s'.order == s.order + list && s'.front == s.front && s'.next == s.next;
    assert HeldOk(s, s.producers[q]);
    hide HeldOk, ProduceStep;
    forall n, j | n in Held(s.producers[q]) && s'.front <= j < |s'.order|
      ensures s'.order[j] != n
    {
      HeldOutsideChain(s, q, n);
      assert s.holder[n] == q;
      if |s.order| <= j {
        assert s'.order[j] == list[j - |s.order|];
        assert s'.order[j] in Held(s.producers[p]);
      } else {
        assert s'.order[j] == s.order[j];
      }
    }
    HeldFrame(s, s', s.producers[q]);
  }

  lemma {:induction false} LinkShape(s: State, p: nat)
    requires Shape(s) && p < |s.producers| && s.producers[p].Link?
    ensures Shape(ProduceStep(s, p))
  {
    var s' := ProduceStep(s, p);
    LinkChain(s, p);
    LinkHoldings(s, p);
    LocalsFrame(s, s');
  }

  lemma {:induction false} LinkChain(s: State, p: nat)
    requires ChainOk(s) && p < |s.producers| && s.producers[p].Link?
    ensures ChainOk(ProduceStep(s, p))
  {
    var pc := s.producers[p];
    FillLink(s, ProduceStep(s, p), pc.first, pc.prev, pc.at);
    LinkPending(s, p);
  }

  /** Filling in an owed link. */
  lemma {:induction false} FillLink(s: State, t: State, first: Node, prev: Node, at: int)
    requires Ends(s) && ChainDistinct(s) && Links(s) && PendingLink(s, first, prev, at)
    requires t.order == s.order && t.front == s.front && t.head == s.head && t.tail == s.tail
    requires t.next == s.next[prev := At(first)] && t.owed == s.owed - {at}
    ensures Ends(t) && ChainDistinct(t) && Links(t)
  {
    forall k, k' | s.front <= k && k' == k + 1 < |s.order|
      ensures Load(t.next, s.order[k]) == At(s.order[k']) || (Load(t.next, s.order[k]) == Null && k in t.owed)
    {
      if k != at {
        assert s.order[k] != s.order[at];
      }
    }
  }

  lemma {:induction false} LinkPending(s: State, p: nat)
    requires ChainDistinct(s) && Pending(s) && p < |s.producers| && s.producers[p].Link?
    ensures Pending(ProduceStep(s, p))
  {
    var s' := ProduceStep(s, p);
    var at := s.producers[p].at;
    var prev := s.producers[p].prev;
    assert s'.order == s.order && s'.front == s.front && s'.consumer == s.consumer && s'.owed == s.owed - {at};
    assert s'.next == s.next[prev := At(s.producers[p].first)];
    assert s.order[at] == prev;
    forall q | 0 <= q < |s.producers| && q != p && s.producers[q].Link?
      ensures s.producers[q].at != at
      ensures PendingLink(s', s.producers[q].first, s.producers[q].prev, s.producers[q].at)
    {
      assert s.owed[s.producers[q].at] == Producer(q);
      LinkElsewhere(s, s', at, s.producers[q].first, s.producers[q].prev, s.producers[q].at);
    }
    if s.consumer.StubLink? {
      LinkElsewhere(s, s', at, STUB, s.consumer.prev, s.consumer.at);
    }
    hide PendingLink;
  }

  /** Storing one owed link leaves another owed one as it is. */
  lemma {:induction false} LinkElsewhere(s: State, s': State, at: nat, first: Node, prev: Node, k: nat)
    requires ChainDistinct(s) && s.front <= at < |s.order| && k != at && PendingLink(s, first, prev, k)
    requires s'.order == s.order && s'.front == s.front
    requires forall n :: n != s.order[at] ==> Load(s'.next, n) == Load(s.next, n)
    ensures PendingLink(s', first, prev, k)
  {
  }

  lemma {:induction false} LinkHoldings(s: State, p: nat)
    requires Holdings(s) && p < |s.producers| && s.producers[p].Link?
    requires var pc := s.producers[p]; PendingLink(s, pc.first, pc.prev, pc.at)
    ensures Holdings(ProduceStep(s, p))
  {
    var s' := ProduceStep(s, p);
    forall q | 0 <= q < |s.producers| && q != p
      ensures HeldOk(s', s'.producers[q])
    {
      LinkHeld(s, p, q);
    }
    assert Held(s'.producers[p]) == [];
    assert HeldOk(s', s'.producers[p]);
    hide HeldOk;
  }

  lemma {:induction false} LinkHeld(s: State, p: nat, q: nat)
    requires Holdings(s) && p < |s.producers| && s.producers[p].Link? && q < |s.producers| && q != p
    requires var pc := s.producers[p]; PendingLink(s, pc.first, pc.prev, pc.at)
    ensures HeldOk(ProduceStep(s, p), s.producers[q])
  {
    var s' := ProduceStep(s, p);
    forall n | n in Held(s.producers[q])
      ensures n != s.producers[p].prev && forall j :: s'.front <= j < |s'.order| ==> s'.order[j] != n
    {
      HeldOutsideChain(s, q, n);
    }
    HeldFrame(s, s', s.producers[q]);
  }

  /** A NULL link out of a non-last chain node is owed by a producer, unless the consumer owes it. */
  lemma {:induction false} OwedMeansLink(s: State, k: int)
    requires Links(s) && Pending(s) && s.front <= k && k + 1 < |s.order|
    requires Load(s.next, s.order[k]) == Null && !s.consumer.StubLink?
    ensures AnyLink(s)
  {
    var k' := k + 1;
    assert Load(s.next, s.order[k]) == At(s.order[k']) || k in s.owed;
    var p := s.owed[k].p;
    assert s.producers[p].Link?;
  }

  /** A tail with a non-NULL link is followed by exactly that node. */
  lemma {:induction false} TailLink(s: State, n: Node)
    requires Ends(s) && Links(s) && Load(s.next, s.tail) == At(n)
    ensures s.front + 1 < |s.order| && s.order[s.front + 1] == n
  {
  }

  /** The consumer's loads change nothing shared. */
  ghost predicate Reads(pc: ConsumerPc) {
    pc.LoadNext? || pc.LoadHeadAtStub? || pc.ReloadNext? || pc.LoadHead? || pc.FinalNext? || pc.EmptyNext? ||
      pc.EmptyHead?
  }

  /** The three stores that move the tail on. */
  ghost predicate Advances(pc: ConsumerPc) {
    pc.SkipStub? || pc.Advance? || pc.FinalAdvance?
  }

  lemma {:induction false} MoveHoldings(s: State, pc: ConsumerPc)
    requires Holdings(s)
    ensures Holdings(s.(consumer := pc))
  {
    HoldingsFrame(s, s.(consumer := pc));
  }

  lemma {:induction false} StoreHoldings(s: State, n: Node, v: Ptr)
    requires Holdings(s)
    requires n == STUB || exists j :: s.front <= j < |s.order| && s.order[j] == n
    ensures Holdings(s.(next := s.next[n := v]))
  {
    var s' := s.(next := s.next[n := v]);
    forall p, m | 0 <= p < |s.producers| && m in Held(s.producers[p])
      ensures Load(s'.next, m) == Load(s.next, m)
    {
      HeldOutsideChain(s, p, m);
    }
    HoldingsFrame(s, s');
  }

  lemma {:induction false} StubLinkHoldings(s: State)
    requires Holdings(s) && s.consumer.StubLink? && PendingLink(s, STUB, s.consumer.prev, s.consumer.at)
    ensures Holdings(ConsumeStep(s))
  {
    var t := s.(next := s.next[s.consumer.prev := At(STUB)]);
    StoreHoldings(s, s.consumer.prev, At(STUB));
    HoldingsFrame(t, ConsumeStep(s));
  }

  lemma {:induction false} StubStoreHoldings(s: State)
    requires Holdings(s) && s.consumer.StubStore?
    ensures Holdings(ConsumeStep(s))
  {
    StoreHoldings(s, STUB, Null);
    MoveHoldings(s.(next := s.next[STUB := Null]), ConsumeStep(s).consumer);
  }

  lemma {:induction false} AdvanceHoldings(s: State, t: State)
    requires Holdings(s) && t.producers == s.producers && t.holder == s.holder && t.next == s.next
    requires (s.front <= t.front && t.order == s.order) || (t.front == s.front && t.order == s.order + [STUB])
    ensures Holdings(t)
  {
    HoldingsFrame(s, t);
  }

  lemma {:induction false} ConsumeHoldings(s: State)
    requires Holdings(s) && Ends(s) && !ConsumerFree(s)
    requires s.consumer.StubLink? ==> PendingLink(s, STUB, s.consumer.prev, s.consumer.at)
    ensures Holdings(ConsumeStep(s))
  {
    hide Holdings;
    if Reads(s.consumer) {
      MoveHoldings(s, ConsumeStep(s).consumer);
    } else if Advances(s.consumer) || s.consumer.StubExchange? {
      AdvanceHoldings(s, ConsumeStep(s));
    } else if s.consumer.StubStore? {
      StubStoreHoldings(s);
    } else {
      StubLinkHoldings(s);
    }
  }

  /** The tail's link as the consumer may load it: the next chain node, or NULL with an overlap. */
  lemma {:induction false} LoadedLink(s: State)
    requires ChainOk(s) && OverlapSeen(s) && !ConsumerFree(s) && !s.consumer.StubLink?
    ensures Load(s.next, s.tail).At? ==>
      s.front + 1 < |s.order| && Load(s.next, s.tail).node == s.order[s.front + 1] != s.tail
    ensures Load(s.next, s.tail).Null? && s.front + 1 < |s.order| ==> s.overlap
  {
    if Load(s.next, s.tail).At? {
      TailLink(s, Load(s.next, s.tail).node);
    } else if s.front + 1 < |s.order| {
      OwedMeansLink(s, s.front);
    }
  }

  lemma {:induction false} ConsumeLocals(s: State)
    requires ChainOk(s) && Locals(s) && OverlapSeen(s) && !ConsumerFree(s)
    ensures Locals(ConsumeStep(s)) && OverlapSeen(ConsumeStep(s))
  {
    if s.consumer.StubLink? {
    } else {
      LoadedLink(s);
      if Reads(s.consumer) {
        ReadLocals(s);
      } else {
        StoreLocals(s);
      }
    }
  }

  lemma {:induction false} ReadLocals(s: State)
    requires Ends(s) && ChainDistinct(s) && Locals(s) && OverlapSeen(s) && Reads(s.consumer)
    requires Load(s.next, s.tail).At? ==>
      s.front + 1 < |s.order| && Load(s.next, s.tail).node == s.order[s.front + 1] != s.tail
    requires Load(s.next, s.tail).Null? && s.front + 1 < |s.order| ==> s.overlap
    ensures Locals(ConsumeStep(s)) && OverlapSeen(ConsumeStep(s))
  {
  }

  lemma {:induction false} StoreLocals(s: State)
    requires Ends(s) && ChainDistinct(s) && Locals(s) && OverlapSeen(s)
    requires Advances(s.consumer) || s.consumer.StubStore? || s.consumer.StubExchange?
    requires Load(s.next, s.tail).At? ==>
      s.front + 1 < |s.order| && Load(s.next, s.tail).node == s.order[s.front + 1] != s.tail
    ensures Locals(ConsumeStep(s)) && OverlapSeen(ConsumeStep(s))
  {
  }

  lemma {:induction false} MoveChain(s: State, pc: ConsumerPc)
    requires ChainOk(s) && !s.consumer.StubLink? && !pc.StubLink?
    ensures ChainOk(s.(consumer := pc))
  {
    ChainFrame(s, s.(consumer := pc));
  }

  lemma {:induction false} AdvanceChain(s: State)
    requires ChainOk(s) && Advances(s.consumer) && Load(s.next, s.tail) == At(s.consumer.next)
    ensures ChainOk(ConsumeStep(s))
  {
    hide Ends, ChainDistinct, Links, Pending, ConsumeStep;
    AdvanceLinks(s);
    AdvancePending(s);
  }

  /** The chain without its first node. */
  lemma {:induction false} AdvanceLinks(s: State)
    requires Ends(s) && ChainDistinct(s) && Links(s) && Advances(s.consumer) &&
      Load(s.next, s.tail) == At(s.consumer.next)
    ensures var s' := ConsumeStep(s); Ends(s') && ChainDistinct(s') && Links(s')
  {
    hide ConsumeStep;
    TailLink(s, s.consumer.next);
    AdvanceMoves(s);
  }

  /** The link at the tail is in place, so no insert in flight owes it. */
  lemma {:induction false} AdvancePending(s: State)
    requires Ends(s) && ChainDistinct(s) && Pending(s) && Advances(s.consumer) &&
      Load(s.next, s.tail) == At(s.consumer.next)
    ensures Pending(ConsumeStep(s))
  {
    hide ConsumeStep, Load, Pending, ChainDistinct;
    AdvanceMoves(s);
    PastLinked(s, ConsumeStep(s));
  }

  lemma {:induction false} AdvanceMoves(s: State)
    requires Advances(s.consumer)
    ensures var s' := ConsumeStep(s);
      && s'.front == s.front + 1 && s'.order == s.order && s'.next == s.next && s'.owed == s.owed
      && s'.head == s.head && s'.tail == s.consumer.next && s'.producers == s.producers
      && !s.consumer.StubLink? && !s'.consumer.StubLink?
  {
    if s.consumer.SkipStub? {
      var n := s.consumer.next;
      assert ConsumeStep(s) == s.(tail := n, front := s.front + 1, consumer := ReloadNext(n));
    } else {
      assert ConsumeStep(s) == TakeTail(s, s.consumer.tail, s.consumer.next);
    }
    hide ConsumeStep;
  }

  /** Owed links lie ahead of a first node whose link is stored. */
  lemma {:induction false} PastLinked(s: State, s': State)
    requires Pending(s) && s.front < |s.order| && Load(s.next, s.order[s.front]) != Null
    requires s'.front == s.front + 1 && s'.order == s.order && s'.next == s.next && s'.owed == s.owed
    requires s'.producers == s.producers && !s'.consumer.StubLink? && !s.consumer.StubLink?
    ensures Pending(s')
  {
    hide Load;
  }

  lemma {:induction false} StubStoreChain(s: State)
    requires ChainOk(s) && s.consumer.StubStore? && StubAbsent(s)
    ensures ChainOk(ConsumeStep(s))
  {
    ChainFrame(s, ConsumeStep(s));
  }

  lemma {:induction false} StubExchangeChain(s: State)
    requires ChainOk(s) && s.consumer.StubExchange? && StubAbsent(s) && Load(s.next, STUB) == Null
    ensures ChainOk(ConsumeStep(s))
  {
    StubExchangeLinks(s);
    StubExchangePending(s);
  }

  lemma {:induction false} StubExchangeLinks(s: State)
    requires Ends(s) && ChainDistinct(s) && Links(s) && s.consumer.StubExchange? && StubAbsent(s) &&
      Load(s.next, STUB) == Null
    ensures var s' := ConsumeStep(s); Ends(s') && ChainDistinct(s') && Links(s')
  {
    var s' := ConsumeStep(s);
    var n := |s.order|;
    assert s'.order == s.order + [STUB] && s'.next == s.next && s'.front == s.front && n - 1 in s'.owed;
    assert s'.order[n] == STUB && s'.order[n - 1] == s.head;
    forall k, k' | s'.front <= k && k' == k + 1 < |s'.order|
      ensures Load(s'.next, s'.order[k]) == At(s'.order[k']) || (Load(s'.next, s'.order[k]) == Null && k in s'.owed)
    {
      assert s'.order[k] == s.order[k];
      if k' < n {
        assert s'.order[k'] == s.order[k'];
        assert Load(s.next, s.order[k]) == At(s.order[k']) || k in s.owed;
      }
    }
  }

  lemma {:induction false} StubExchangePending(s: State)
    requires Ends(s) && ChainDistinct(s) && Pending(s) && s.consumer.StubExchange?
    ensures Pending(ConsumeStep(s))
  {
    var s' := ConsumeStep(s);
    assert forall i :: 0 <= i < |s.order| ==> s'.order[i] == s.order[i];
    assert s'.order[|s.order|] == STUB;
  }

  lemma {:induction false} StubLinkChain(s: State)
    requires ChainOk(s) && s.consumer.StubLink?
    ensures ChainOk(ConsumeStep(s))
  {
    FillLink(s, ConsumeStep(s), STUB, s.consumer.prev, s.consumer.at);
    StubLinkPending(s);
  }

  lemma {:induction false} StubLinkPending(s: State)
    requires ChainDistinct(s) && Pending(s) && s.consumer.StubLink?
    ensures Pending(ConsumeStep(s))
  {
    forall q | 0 <= q < |s.producers| && s.producers[q].Link?
      ensures s.producers[q].at != s.consumer.at && s.producers[q].prev != s.consumer.prev
    {
      assert s.owed[s.producers[q].at] == Producer(q);
    }
  }

  /** A load changes the program counter only, and does not lead to the store of the stub's link. */
  lemma {:induction false} ReadOnlyMoves(s: State)
    requires Reads(s.consumer)
    ensures ConsumeStep(s) == s.(consumer := ConsumeStep(s).consumer)
    ensures !s.consumer.StubLink? && !ConsumeStep(s).consumer.StubLink?
  {
  }

  lemma {:induction false} ConsumeChain(s: State)
    requires ChainOk(s) && Locals(s) && !ConsumerFree(s)
    ensures ChainOk(ConsumeStep(s))
  {
    if Reads(s.consumer) {
      ReadOnlyMoves(s);
      hide ChainOk, ConsumeStep, Locals;
      MoveChain(s, ConsumeStep(s).consumer);
    } else if Advances(s.consumer) {
      AdvanceChain(s);
    } else if s.consumer.StubStore? {
      StubStoreChain(s);
    } else if s.consumer.StubExchange? {
      StubExchangeChain(s);
    } else {
      StubLinkChain(s);
    }
  }

  lemma {:induction false} ConsumeShape(s: State)
    requires Shape(s) && !ConsumerFree(s)
    ensures Shape(ConsumeStep(s))
  {
    ConsumeChain(s);
    ConsumeHoldings(s);
    ConsumeLocals(s);
  }

  lemma {:induction false} ProduceShape(s: State, p: nat)
    requires Shape(s) && p < |s.producers|
    ensures Shape(ProduceStep(s, p))
  {
    match s.producers[p]
    case Ready =>
    case LinkBatch(_, _) => LinkBatchShape(s, p);
    case StoreNull(_) => StoreNullShape(s, p);
    case Exchange(_) => ExchangeShape(s, p);
    case Link(_, _, _) => LinkShape(s, p);
  }

  lemma {:induction false} NextShape(s: State, a: Action)
    requires Shape(s) && Enabled(s, a)
    ensures Shape(Next(s, a))
  {
    match a
    case InsertList(p, list) => StartInsertShape(s, p, StoreNull(list));
    case InsertBatch(p, list) => StartInsertShape(s, p, StartBatch(list));
    case Produce(p) => ProduceShape(s, p);
    case StartPoll => StartCallShape(s, LoadNext(s.tail));
    case StartIsEmpty => StartCallShape(s, EmptyNext(s.tail));
    case Consume => ConsumeShape(s);
  }

  // ---------------------------------------------------------------------------------------
  // Every step keeps the history
  // ---------------------------------------------------------------------------------------

  /** An exchange adds its list at the back; no other producer step changes the abstract queue. */
  lemma {:induction false} ProduceContents(s: State, p: nat)
    requires s.front <= |s.order| && p < |s.producers| && HeldOk(s, s.producers[p])
    ensures Contents(ProduceStep(s, p)) == Contents(s) + (if s.producers[p].Exchange? then s.producers[p].list else [])
  {
    if s.producers[p].Exchange? {
      QueuedAppend(s.order, s.front, s.producers[p].list);
      NonStubId(s.producers[p].list);
    }
  }

  /** Only the store that returns an item takes a node out of the abstract queue: its first. */
  lemma {:induction false} ConsumeContents(s: State)
    requires Ends(s) && Locals(s)
    ensures
      if s.consumer.Advance? || s.consumer.FinalAdvance?
      then Contents(s) == [s.consumer.tail] + Contents(ConsumeStep(s))
      else Contents(ConsumeStep(s)) == Contents(s)
  {
    if Advances(s.consumer) {
      AdvanceFrame(s);
      hide NonStub, ConsumeStep;
      QueuedDrop(s.order, s.front);
    } else if s.consumer.StubExchange? {
      StubExchangeFrame(s);
      assert NonStub([STUB]) == NonStub([STUB][1..]);
      hide NonStub, ConsumeStep;
      QueuedAppend(s.order, s.front, [STUB]);
    } else if !ConsumerFree(s) {
      OtherFrame(s);
      hide NonStub, ConsumeStep;
    }
  }

  lemma {:induction false} ProduceHistory(s: State, p: nat)
    requires History(s) && p < |s.producers| && HeldOk(s, s.producers[p])
    ensures History(ProduceStep(s, p))
  {
    ProduceContents(s, p);
    if s.producers[p].Exchange? {
      var list := s.producers[p].list;
      QueuedAppend(s.order, s.front, list);
      NonStubId(list);
      FlattenSnoc(s.batches, list);
    }
  }

  lemma {:induction false} ConsumeHistory(s: State)
    requires History(s) && Ends(s) && Locals(s) && !ConsumerFree(s)
    ensures History(ConsumeStep(s))
  {
    if Advances(s.consumer) {
      AdvanceHistory(s);
    } else if s.consumer.StubExchange? {
      StubExchangeHistory(s);
    } else {
      OtherHistory(s);
    }
  }

  lemma {:induction false} AdvanceHistory(s: State)
    requires History(s) && Ends(s) && Locals(s) && Advances(s.consumer)
    ensures History(ConsumeStep(s))
  {
    hide NonStub, Flatten, Contents, ConsumeStep, Locals, Ends;
    ConsumeContents(s);
    AdvanceFrame(s);
    QueuedDrop(s.order, s.front);
  }

  /** What the stores that move the tail on do to the history. */
  lemma {:induction false} AdvanceFrame(s: State)
    requires Ends(s) && Locals(s) && Advances(s.consumer)
    ensures s.front < |s.order| && s.order[s.front] == s.tail
    ensures var s' := ConsumeStep(s);
      && s'.order == s.order && s'.front == s.front + 1 && s'.batches == s.batches
      && s'.atStart == s.atStart && s'.overlap == s.overlap
      && (s.consumer.SkipStub? <==> !ConsumerFree(s')) && (s.consumer.SkipStub? <==> s.tail == STUB)
      && s'.returned == s.returned + (if s.tail == STUB then [] else [s.tail])
  {
  }

  lemma {:induction false} StubExchangeHistory(s: State)
    requires History(s) && Ends(s) && Locals(s) && s.consumer.StubExchange?
    ensures History(ConsumeStep(s))
  {
    hide NonStub, Flatten, Contents, ConsumeStep, Locals, Ends;
    ConsumeContents(s);
    StubExchangeFrame(s);
    NonStubStub(s.order);
    assert (s.order + [STUB])[..s.front] == s.order[..s.front];
  }

  lemma {:induction false} StubExchangeFrame(s: State)
    requires s.consumer.StubExchange?
    ensures var s' := ConsumeStep(s);
      && s'.order == s.order + [STUB] && s'.front == s.front && s'.batches == s.batches && s'.returned == s.returned
      && s'.atStart == s.atStart && s'.overlap == s.overlap
  {
  }

  lemma {:induction false} NonStubStub(a: seq<Node>)
    ensures NonStub(a + [STUB]) == NonStub(a)
  {
    NonStubConcat(a, [STUB]);
    assert NonStub([STUB]) == NonStub([STUB][1..]);
  }

  lemma {:induction false} OtherHistory(s: State)
    requires History(s) && Ends(s) && Locals(s) && !ConsumerFree(s) && !Advances(s.consumer) &&
      !s.consumer.StubExchange?
    ensures History(ConsumeStep(s))
  {
    hide NonStub, Flatten, Contents, ConsumeStep, Locals, Ends;
    ConsumeContents(s);
    OtherFrame(s);
  }

  lemma {:induction false} OtherFrame(s: State)
    requires !ConsumerFree(s) && !Advances(s.consumer) && !s.consumer.StubExchange?
    ensures var s' := ConsumeStep(s);
      && s'.order == s.order && s'.front == s.front && s'.batches == s.batches && s'.returned == s.returned
      && s'.atStart == s.atStart && s'.overlap == s.overlap
  {
    hide AfterLoad;
  }

  lemma {:induction false} NextInv(s: State, a: Action)
    requires Inv(s) && Enabled(s, a)
    ensures Inv(Next(s, a))
  {
    NextShape(s, a);
    match a
    case Produce(p) => assert HeldOk(s, s.producers[p]); ProduceHistory(s, p);
    case Consume => ConsumeHistory(s);
    case _ =>
  }

  lemma {:induction false} ConsumeInv(s: State)
    requires Inv(s) && !ConsumerFree(s)
    ensures Inv(ConsumeStep(s))
  {
    NextInv(s, Consume);
  }

  lemma {:induction false} StartPollInv(s: State)
    requires Inv(s) && ConsumerFree(s)
    ensures Inv(StartCall(s, LoadNext(s.tail)))
  {
    NextInv(s, StartPoll);
  }

  // ---------------------------------------------------------------------------------------
  // Every run
  // ---------------------------------------------------------------------------------------

  ghost predicate ValidRun(s: State, actions: seq<Action>)
    decreases |actions|
  {
    actions != [] ==> Enabled(s, actions[0]) && ValidRun(Next(s, actions[0]), actions[1..])
  }

  ghost function Final(s: State, actions: seq<Action>): State
    requires ValidRun(s, actions)
    decreases |actions|
  {
    if actions == [] then s else Final(Next(s, actions[0]), actions[1..])
  }

  lemma {:induction false} InitInv(n: nat)
    ensures Inv(Init(n))
  {
    var s := Init(n);
    assert s.order[..0] == [];
    assert NonStub([STUB]) == NonStub([STUB][1..]);
  }

  lemma {:induction false} InitEmpty(n: nat)
    ensures Contents(Init(n)) == []
  {
    assert NonStub([STUB]) == NonStub([STUB][1..]);
  }

  lemma {:induction false} RunInv(s: State, actions: seq<Action>)
    requires Inv(s) && ValidRun(s, actions)
    ensures Inv(Final(s, actions))
    decreases |actions|
  {
    if actions != [] {
      NextInv(s, actions[0]);
      RunInv(Next(s, actions[0]), actions[1..]);
    }
  }

  /**
   FIFO in every interleaving of any number of producers with the consumer: what poll returned,
   followed by what is still between tail and head, is every inserted list in exchange order,
   each list in one piece; nothing is lost, duplicated or invented.
   */
  lemma {:induction false} Fifo(n: nat, actions: seq<Action>)
    requires ValidRun(Init(n), actions)
    ensures var s := Final(Init(n), actions); s.returned + Contents(s) == Flatten(s.batches)
  {
    InitInv(n);
    hide Shape, History, Contents, Flatten, ValidRun, Final, Init;
    RunInv(Init(n), actions);
    HistoryIsFifo(Final(Init(n), actions));
  }

  lemma {:induction false} HistoryIsFifo(s: State)
    requires History(s)
    ensures s.returned + Contents(s) == Flatten(s.batches)
  {
    hide NonStub, Flatten;
    assert s.order == s.order[..s.front] + s.order[s.front..];
    NonStubConcat(s.order[..s.front], s.order[s.front..]);
  }

  /** The queue is empty exactly when the stub is the whole chain. */
  lemma {:induction false} EmptyIffOnlyStub(s: State)
    requires Ends(s) && ChainDistinct(s)
    ensures Contents(s) == [] <==> s.tail == STUB && s.head == STUB
  {
    QueuedDrop(s.order, s.front);
    if s.tail == STUB && s.front + 1 < |s.order| {
      QueuedDrop(s.order, s.front + 1);
    }
  }

  /**
   What poll's answer means. EMPTY: the abstract queue was empty at the head load. ITEM: the node
   was its first. RETRY: some insert was between exchange and link during the call.
   */
  ghost predicate Answered(s: State, s': State, result: PollResult) {
    match result
    case Empty => Contents(s) == [] && Contents(s') == []
    case Item(t) => Contents(s) == [t] + Contents(s')
    case Retry => s.overlap && Contents(s') == Contents(s) != []
  }

  /** The step that ends a poll answers truly; with no overlap, ITEM comes exactly from a non-empty queue. */
  lemma {:induction false} PollAnswer(s: State)
    requires Inv(s) && !ConsumerFree(s) && ConsumeStep(s).consumer.Polled?
    ensures Answered(s, ConsumeStep(s), ConsumeStep(s).consumer.result)
    ensures !s.overlap ==> (ConsumeStep(s).consumer.result.Item? <==> s.atStart != [])
  {
    hide Ends, ChainDistinct, Links, Pending, Holdings, Contents;
    if Reads(s.consumer) {
      LoadAnswer(s);
    } else {
      TakeAnswer(s);
    }
  }

  lemma {:induction false} LoadAnswer(s: State)
    requires ChainOk(s) && Locals(s) && OverlapSeen(s) && Reads(s.consumer) && AfterLoad(s).Polled?
    ensures !AfterLoad(s).result.Item? && Answered(s, s.(consumer := AfterLoad(s)), AfterLoad(s).result)
  {
    EmptyIffOnlyStub(s);
    LoadedLink(s);
    LoadAnswerLocal(s);
  }

  lemma {:induction false} LoadAnswerLocal(s: State)
    requires Ends(s) && Locals(s) && Reads(s.consumer) && AfterLoad(s).Polled?
    requires Load(s.next, s.tail).Null? && s.front + 1 < |s.order| ==> s.overlap
    ensures AfterLoad(s) == Polled(Empty) ==> s.tail == STUB && s.head == STUB
    ensures AfterLoad(s) != Polled(Empty) ==>
      AfterLoad(s) == Polled(Retry) && s.overlap && !(s.tail == STUB && s.head == STUB)
  {
  }

  lemma {:induction false} TakeAnswer(s: State)
    requires Ends(s) && Locals(s) && !Reads(s.consumer) && !ConsumerFree(s) && ConsumeStep(s).consumer.Polled?
    ensures ConsumeStep(s).consumer.result.Item? && Answered(s, ConsumeStep(s), ConsumeStep(s).consumer.result)
  {
    ConsumeContents(s);
  }

  /** mpsc_queue_is_empty answers true exactly when the abstract queue is empty at its head load. */
  lemma {:induction false} IsEmptyAnswer(s: State)
    requires Inv(s) && s.consumer.EmptyHead?
    ensures ConsumeStep(s).consumer == Checked(Contents(s) == [])
  {
    EmptyIffOnlyStub(s);
  }

  /**
   A node handed out is the caller's at once: it is out of the chain, no insert in flight still
   has it as `prev`, and nobody holds it, so it may be freed or inserted again.
   */
  lemma {:induction false} HandedOutIsOwned(s: State, t: Node)
    requires Inv(s) && !ConsumerFree(s) && ConsumeStep(s).consumer == Polled(Item(t))
    ensures Owned(ConsumeStep(s), [t])
    ensures forall p :: 0 <= p < |s.producers| && s.producers[p].Link? ==> s.producers[p].prev != t
  {
    ItemMeansTake(s, t);
    AdvancedTail(s, t);
    PassedTailOwned(s, ConsumeStep(s));
    PassedTailNotPrev(s);
  }

  lemma {:induction false} ItemMeansTake(s: State, t: Node)
    requires !ConsumerFree(s) && ConsumeStep(s).consumer == Polled(Item(t))
    ensures (s.consumer.Advance? || s.consumer.FinalAdvance?) && s.consumer.tail == t
    ensures ConsumeStep(s) == TakeTail(s, t, s.consumer.next)
  {
    TakeMeansItem(s);
  }

  lemma {:induction false} AdvancedTail(s: State, t: Node)
    requires Locals(s) && (s.consumer.Advance? || s.consumer.FinalAdvance?) && s.consumer.tail == t
    ensures t == s.tail != STUB && Load(s.next, t).At?
  {
  }

  lemma {:induction false} PassedTailNotPrev(s: State)
    requires Pending(s) && Load(s.next, s.tail).At?
    ensures forall p :: 0 <= p < |s.producers| && s.producers[p].Link? ==> s.producers[p].prev != s.tail
  {
  }

  lemma {:induction false} PassedTailOwned(s: State, t: State)
    requires Ends(s) && ChainDistinct(s) && Holdings(s) && s.tail != STUB
    requires t.order == s.order && t.producers == s.producers && t.front == s.front + 1
    ensures Owned(t, [s.tail])
  {
    forall p | 0 <= p < |s.producers| && s.tail in Held(s.producers[p])
      ensures false
    {
      HeldOutsideChain(s, p, s.tail);
    }
  }

  /** When poll puts the stub back, the stub is nowhere in the chain. */
  lemma {:induction false} StubGoesBackOnce(s: State)
    requires Inv(s) && s.consumer.StubExchange?
    ensures STUB !in Chain(s)
  {
    hide History, Holdings, ChainOk;
  }

  /** The nodes whose `next` field a step reads or writes. */
  function Touches(s: State, a: Action): set<Node> {
    match a
    case Produce(p) =>
      if p >= |s.producers| then {} else
      (match s.producers[p]
       case LinkBatch(list, i) => if i < |list| then {list[i]} else {}
       case StoreNull(list) => if list != [] then {list[|list| - 1]} else {}
       case Link(_, prev, _) => {prev}
       case _ => {})
    case Consume =>
      (match s.consumer
       case LoadNext(t) => {t}
       case ReloadNext(t) => {t}
       case StubStore(_) => {STUB}
       case StubLink(_, prev, _) => {prev}
       case FinalNext(t) => {t}
       case EmptyNext(t) => {t}
       case _ => {})
    case _ => {}
  }

  /** Every node a step touches is the stub, in the chain, or held by the acting producer. */
  lemma {:induction false} TouchesOnlyLiveNodes(s: State, a: Action, n: Node)
    requires Inv(s) && Enabled(s, a) && n in Touches(s, a)
    ensures n == STUB || n in Chain(s) || (a.Produce? && n in Held(s.producers[a.p]))
  {
    match a
    case Produce(p) => ProducerTouches(s, p, n);
    case Consume => ConsumerTouches(s, n);
    case _ =>
  }

  lemma {:induction false} ProducerTouches(s: State, p: nat, n: Node)
    requires Ends(s) && Pending(s) && p < |s.producers| && HeldOk(s, s.producers[p]) && n in Touches(s, Produce(p))
    ensures n in Chain(s) || n in Held(s.producers[p])
  {
    if s.producers[p].Link? {
      assert Chain(s)[s.producers[p].at - s.front] == n;
    }
  }

  lemma {:induction false} ConsumerTouches(s: State, n: Node)
    requires Ends(s) && Pending(s) && Locals(s) && n in Touches(s, Consume)
    ensures n == STUB || n in Chain(s)
  {
    assert Chain(s)[0] == s.tail;
    if s.consumer.StubLink? {
      assert Chain(s)[s.consumer.at - s.front] == n;
    }
  }
}
