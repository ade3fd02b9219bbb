/**
 The cross-thread command channel of thread.c: evthr_defer on any number of sender threads, the
 event loop's _evthr_read_cmd and _evthr_run_callbacks on one target thread, and evthr_free's
 drain of a sender's ring, interleaved one atomic operation at a time.

 One target means one enqueuing thread for each sender's recycle ring, which is what
 spsc_queue.h asks for. A callback that itself defers is one more sender.
 */
module Channel {
  import Q = MpscQueue
  import R = SpscQueue
  import opened CellFlow
  import opened Prelude

  /** The largest value an eventfd counter holds; one more write is refused with EAGAIN. */
  const EVENTFD_MAX: nat := 0xffff_ffff_ffff_fffe

  datatype DeferResult = NotCalled | OkResult | RetryResult | FatalResult | NoCbResult

  /** Where a sender is in evthr_defer, or in evthr_free's drain. */
  datatype SenderPc =
    | SIdle(result: DeferResult)
    | SDequeue(cmd: Cmd)
    | SAlloc(cmd: Cmd)
    | SFill(cmd: Cmd, cell: Cell)
    | SInsert(cmd: Cmd, cell: Cell)
    | SWrite
    | SDrain
    | SGone

  /** Where the target is: in the event loop, or in the drain loop. */
  datatype TargetPc =
    | TWait
    | TNext
    | TPoll
    | TRun(cell: Cell)
    | TRecycle(cell: Cell, home: Option<nat>)
    | TEnqueue(cell: Cell, ring: nat)

  /** How the eventfd writes since the target last read its eventfd went. */
  datatype Writes = NoWrites | OnlyFailed | SomeThrough

  datatype State = State(
    q: Q.State,
    rings: seq<R.State>,
    threaded: seq<bool>,
    senders: seq<SenderPc>,
    target: TargetPc,
    eventfd: nat,
    payload: map<Cell, Cmd>,
    place: map<Cell, Place>,
    log: seq<Cmd>,
    ran: seq<Cmd>,
    writes: Writes)

  datatype Action =
    | Defer(i: nat, cb: nat, args: nat)
    | Alloc(i: nat, cell: Cell)
    | Send(i: nat)
    | Write(i: nat, fails: bool)
    | StartFree(i: nat)
    | Target

  // ---------------------------------------------------------------------------------------
  // The steps
  // ---------------------------------------------------------------------------------------

  function Init(threaded: seq<bool>, bufs: seq<seq<nat>>): State
    requires |bufs| == |threaded|
  {
    State(Q.Init(|threaded|), seq(|bufs|, i requires 0 <= i < |bufs| => R.Init(bufs[i])), threaded,
          seq(|threaded|, _ => SIdle(NotCalled)), TWait, 0, map[], map[], [], [], NoWrites)
  }

  ghost predicate Enabled(s: State, a: Action) {
    match a
    case Defer(i, _, _) => i < |s.senders| && s.senders[i].SIdle?
    case Alloc(i, c) =>
      i < |s.senders| && s.senders[i].SAlloc? && c != Q.STUB && (c !in s.place || s.place[c].Freed?)
    case Send(i) => i < |s.senders| &&
      (s.senders[i].SDequeue? || s.senders[i].SFill? || s.senders[i].SInsert? || s.senders[i].SDrain?)
    case Write(i, _) => i < |s.senders| && s.senders[i].SWrite?
    case StartFree(i) => i < |s.senders| && s.senders[i].SIdle? && i < |s.threaded| && s.threaded[i]
    case Target => true
  }

  /** Everything has one entry per sender. */
  ghost predicate Sized(s: State) {
    |s.rings| == |s.threaded| == |s.senders| == |s.q.producers|
  }

  /** The head of evthr_defer: no callback is refused, else a cell comes from the sender's ring or from calloc. */
  function DeferStep(s: State, i: nat, cb: nat, args: nat): State
    requires i < |s.senders| == |s.threaded| == |s.rings|
  {
    if cb == 0 then s.(senders := s.senders[i := SIdle(NoCbResult)])
    else if s.threaded[i] then
      s.(senders := s.senders[i := SDequeue(Cmd(cb, args, Some(i)))],
         rings := s.rings[i := s.rings[i].(deq := R.StartDeq(s.rings[i].ring))])
    else s.(senders := s.senders[i := SAlloc(Cmd(cb, args, None))])
  }

  function AllocStep(s: State, i: nat, c: Cell): State
    requires i < |s.senders| && s.senders[i].SAlloc?
  {
    s.(senders := s.senders[i := SFill(s.senders[i].cmd, c)], place := s.place[c := InHand(i)])
  }

  /** One step of spsc_dequeue on the sender's own ring; a cell it yields is the sender's. */
  function DequeueStep(s: State, i: nat): State
    requires i < |s.senders| == |s.rings| && s.senders[i].SDequeue?
  {
    var (r, pc) := R.DeqStep(s.rings[i].ring, s.rings[i].deq);
    DequeueTo(s, i, r, pc)
  }

  function DequeueTo(s: State, i: nat, r: R.Ring, pc: R.DeqPc): State
    requires i < |s.senders| == |s.rings| && s.senders[i].SDequeue?
  {
    var s' := s.(rings := s.rings[i := s.rings[i].(ring := r, deq := pc)]);
    if !pc.DeqDone? then s'
    else if pc.ok then
      s'.(senders := s.senders[i := SFill(s.senders[i].cmd, pc.data)], place := s.place[pc.data := InHand(i)])
    else s'.(senders := s.senders[i := SAlloc(s.senders[i].cmd)])
  }

  /** One step of evthr_free's drain: each cell of the ring is freed. */
  function DrainStep(s: State, i: nat): State
    requires i < |s.senders| == |s.rings| && s.senders[i].SDrain?
  {
    var (r, pc) := R.DeqStep(s.rings[i].ring, s.rings[i].deq);
    DrainTo(s, i, r, pc)
  }

  function DrainTo(s: State, i: nat, r: R.Ring, pc: R.DeqPc): State
    requires i < |s.senders| == |s.rings| && s.senders[i].SDrain?
  {
    if pc.DeqDone? && pc.ok then
      s.(rings := s.rings[i := s.rings[i].(ring := r, deq := R.StartDeq(r))], place := s.place[pc.data := Freed])
    else
      s.(rings := s.rings[i := s.rings[i].(ring := r, deq := pc)],
         senders := if pc.DeqDone? then s.senders[i := SGone] else s.senders)
  }

  /** The command is written into the cell, and mpsc_queue_insert begins. */
  function FillStep(s: State, i: nat): State
    requires i < |s.senders| == |s.q.producers| && s.senders[i].SFill?
  {
    var SFill(cmd, c) := s.senders[i];
    s.(senders := s.senders[i := SInsert(cmd, c)], payload := s.payload[c := cmd],
       q := Q.StartInsert(s.q, i, Q.StoreNull([c])))
  }

  /** One step of mpsc_queue_insert. */
  function InsertStep(s: State, i: nat): State
    requires i < |s.senders| == |s.q.producers| && s.senders[i].SInsert?
  {
    InsertTo(s, i, Q.ProduceStep(s.q, i))
  }

  function InsertTo(s: State, i: nat, q': Q.State): State
    requires i < |s.senders| == |s.q.producers| && s.senders[i].SInsert?
  {
    var SInsert(cmd, c) := s.senders[i];
    if s.q.producers[i].Exchange? then s.(q := q', place := s.place[c := Queued], log := s.log + [cmd])
    else if s.q.producers[i].Link? then s.(q := q', senders := s.senders[i := SWrite])
    else s.(q := q')
  }

  function SendStep(s: State, i: nat): State
    requires i < |s.senders| == |s.q.producers| == |s.rings|
  {
    match s.senders[i]
    case SDequeue(_) => DequeueStep(s, i)
    case SFill(_, _) => FillStep(s, i)
    case SInsert(_, _) => InsertStep(s, i)
    case SDrain => DrainStep(s, i)
    case _ => s
  }

  /** The eventfd write that ends evthr_defer. The command is queued whatever it returns. */
  function WriteStep(s: State, i: nat, fails: bool): State
    requires i < |s.senders|
  {
    if fails then
      s.(senders := s.senders[i := SIdle(FatalResult)],
         writes := if s.writes.SomeThrough? then s.writes else OnlyFailed)
    else if s.eventfd < EVENTFD_MAX then
      s.(senders := s.senders[i := SIdle(OkResult)], eventfd := s.eventfd + 1, writes := SomeThrough)
    else s.(senders := s.senders[i := SIdle(RetryResult)], writes := SomeThrough)
  }

  function StartFreeStep(s: State, i: nat): State
    requires i < |s.senders| == |s.rings|
  {
    s.(senders := s.senders[i := SDrain],
       rings := s.rings[i := s.rings[i].(deq := R.StartDeq(s.rings[i].ring))])
  }

  /** One step of mpsc_queue_poll; anything but ITEM ends the drain loop. */
  function PollStep(s: State): State {
    PollTo(s, Q.ConsumeStep(s.q))
  }

  function PollTo(s: State, q': Q.State): State {
    if !q'.consumer.Polled? then s.(q := q')
    else match q'.consumer.result
      case Item(c) => s.(q := q', target := TRun(c), place := s.place[c := Running])
      case _ => s.(q := q', target := TWait)
  }

  /** The callback runs with what the cell holds. */
  function RunStep(s: State): State
    requires s.target.TRun?
  {
    var c := s.target.cell;
    if c in s.payload then
      s.(ran := s.ran + [s.payload[c]], target := TRecycle(c, s.payload[c].home))
    else s
  }

  /** A cell without a home ring is freed; else spsc_enqueue begins. */
  function RecycleStep(s: State): State
    requires s.target.TRecycle?
  {
    var TRecycle(c, home) := s.target;
    if home.Some? && home.value < |s.rings| then
      var i := home.value;
      s.(target := TEnqueue(c, i), rings := s.rings[i := s.rings[i].(enq := R.StartEnq(s.rings[i].ring, c))])
    else s.(target := TNext, place := s.place[c := Freed])
  }

  /** One step of spsc_enqueue; a cell the ring refuses is freed. */
  function EnqueueStep(s: State): State
    requires s.target.TEnqueue? && s.target.ring < |s.rings|
  {
    var i := s.target.ring;
    var (r, pc) := R.EnqStep(s.rings[i].ring, s.rings[i].enq);
    EnqueueTo(s, r, pc)
  }

  function EnqueueTo(s: State, r: R.Ring, pc: R.EnqPc): State
    requires s.target.TEnqueue? && s.target.ring < |s.rings|
  {
    var TEnqueue(c, i) := s.target;
    var s' := s.(rings := s.rings[i := s.rings[i].(ring := r, enq := pc)]);
    if !pc.EnqDone? then s'
    else s'.(target := TNext, place := s.place[c := if pc.ok then InRing(i) else Freed])
  }

  ghost function TargetStep(s: State): State {
    match s.target
    case TWait => if s.eventfd == 0 then s else s.(eventfd := 0, writes := NoWrites, target := TNext)
    case TNext => s.(q := Q.StartCall(s.q, Q.LoadNext(s.q.tail)), target := TPoll)
    case TPoll => PollStep(s)
    case TRun(_) => RunStep(s)
    case TRecycle(_, _) => RecycleStep(s)
    case TEnqueue(_, i) => if i < |s.rings| then EnqueueStep(s) else s
  }

  ghost function Next(s: State, a: Action): State
    requires Sized(s) && Enabled(s, a)
  {
    match a
    case Defer(i, cb, args) => DeferStep(s, i, cb, args)
    case Alloc(i, c) => AllocStep(s, i, c)
    case Send(i) => SendStep(s, i)
    case Write(i, fails) => WriteStep(s, i, fails)
    case StartFree(i) => StartFreeStep(s, i)
    case Target => TargetStep(s)
  }

  // ---------------------------------------------------------------------------------------
  // The abstract view
  // ---------------------------------------------------------------------------------------

  function HandOf(pc: SenderPc, ins: Q.ProducerPc): Hand {
    match pc
    case SFill(_, c) => Got(c)
    case SInsert(cmd, c) => if ins.StoreNull? || ins.Exchange? then Filled(c, cmd) else Free
    case _ => Free
  }

  function BusyOf(pc: TargetPc): Busy {
    match pc
    case TRun(c) => Holds(c, false)
    case TRecycle(c, _) => Holds(c, true)
    case TEnqueue(c, _) => Holds(c, true)
    case _ => Nothing
  }

  ghost function View(s: State): Flow
    requires Sized(s)
  {
    Flow(
      seq(|s.senders|, i requires 0 <= i < |s.senders| => HandOf(s.senders[i], s.q.producers[i])),
      Q.Contents(s.q),
      BusyOf(s.target),
      seq(|s.rings|, i requires 0 <= i < |s.rings| => R.Items(s.rings[i].ring)),
      s.payload, s.place, s.log, s.ran)
  }

  /** The move each step makes on the abstract view. */
  ghost function MoveOf(s: State, a: Action): Move
    requires Sized(s) && Enabled(s, a)
  {
    match a
    case Alloc(i, c) => Allocate(i, c)
    case Send(i) =>
      (match s.senders[i]
       case SDequeue(_) => if s.rings[i].deq.DeqPublish? then Reuse(i) else Stutter
       case SFill(cmd, _) => Fill(i, cmd)
       case SInsert(_, _) => if s.q.producers[i].Exchange? then Submit(i) else Stutter
       case SDrain => if s.rings[i].deq.DeqPublish? then Release(i) else Stutter
       case _ => Stutter)
    case Target =>
      (match s.target
       case TPoll => if s.q.consumer.Advance? || s.q.consumer.FinalAdvance? then Take else Stutter
       case TRun(_) => Execute
       case TRecycle(_, home) => if home.Some? then Stutter else Drop
       case TEnqueue(_, i) =>
         if i >= |s.rings| then Stutter
         else if s.rings[i].enq.EnqPublish? then Recycle(i)
         else if R.EnqStep(s.rings[i].ring, s.rings[i].enq).1.EnqDone? then Drop
         else Stutter
       case _ => Stutter)
    case _ => Stutter
  }

  // ---------------------------------------------------------------------------------------
  // The invariant
  // ---------------------------------------------------------------------------------------

  /** A sender is inside its insert exactly when its program counter says so. */
  ghost predicate SenderOk(s: State, i: nat)
    requires Sized(s) && i < |s.senders|
  {
    && R.Inv(s.rings[i])
    && (match s.senders[i]
        case SInsert(_, c) =>
          s.q.producers[i] == Q.StoreNull([c]) || s.q.producers[i] == Q.Exchange([c]) || s.q.producers[i].Link?
        case _ => s.q.producers[i].Ready?)
    && (s.senders[i].SDequeue? || s.senders[i].SDrain? <==> !(s.rings[i].deq.DeqIdle? || s.rings[i].deq.DeqDone?))
    && (match s.rings[i].enq
        case EnqIdle => true
        case EnqDone(_) => true
        case pc => s.target == TEnqueue(pc.data, i))
  }

  ghost predicate TargetOk(s: State) {
    && (s.target.TPoll? <==> !Q.ConsumerFree(s.q))
    && (Q.NotPolling(s.q.consumer) ==> s.q.consumer.Idle?)
    && (s.target.TRecycle? && s.target.home.Some? ==> s.target.home.value < |s.rings|)
    && (s.target.TEnqueue? ==>
          s.target.ring < |s.rings| && !s.rings[s.target.ring].enq.EnqIdle? && !s.rings[s.target.ring].enq.EnqDone?)
  }

  /** Commands name an existing home. */
  ghost predicate HomesOk(s: State) {
    && (forall c :: c in s.payload && s.payload[c].home.Some? ==> s.payload[c].home.value < |s.rings|)
    && (forall i :: 0 <= i < |s.senders| ==> CmdOk(s.senders[i], |s.rings|))
  }

  ghost predicate CmdOk(pc: SenderPc, n: nat) {
    match pc
    case SDequeue(cmd) => cmd.home.Some? ==> cmd.home.value < n
    case SAlloc(cmd) => cmd.home.Some? ==> cmd.home.value < n
    case SFill(cmd, _) => cmd.home.Some? ==> cmd.home.value < n
    case SInsert(cmd, _) => cmd.home.Some? ==> cmd.home.value < n
    case _ => true
  }

  /** How the program counters of the parts fit together. */
  ghost predicate Control(s: State) {
    && Sized(s)
    && (forall i :: 0 <= i < |s.senders| ==> SenderOk(s, i))
    && TargetOk(s)
    && HomesOk(s)
  }

  /** A sender between its head exchange and its eventfd write. */
  ghost predicate Owing(s: State) {
    exists i :: 0 <= i < |s.senders| && i < |s.q.producers| && (s.senders[i].SWrite? || s.q.producers[i].Link?)
  }

  ghost predicate Wake(s: State) {
    && (s.eventfd > 0 <==> s.writes.SomeThrough?)
    && ((s.target.TWait? && Q.Contents(s.q) != []) || (s.target.TPoll? && s.q.overlap) ==>
         s.eventfd > 0 || Owing(s) || s.writes.OnlyFailed?)
  }

  ghost predicate Inv(s: State) {
    Control(s) && Q.Inv(s.q) && OnePlace(View(s)) && Faithful(View(s)) && Wake(s)
  }

  // ---------------------------------------------------------------------------------------
  // Steps of the senders
  // ---------------------------------------------------------------------------------------

  /** Changing one sender's own program counter and ring leaves the other senders alone. */
  lemma {:induction false} OtherSenders(s: State, s': State, i: nat)
    requires Control(s) && Sized(s') && i < |s.senders| == |s'.senders|
    requires forall j :: 0 <= j < |s.senders| && j != i ==>
      s'.senders[j] == s.senders[j] && s'.rings[j] == s.rings[j] && s'.q.producers[j] == s.q.producers[j]
    requires s'.target == s.target && SenderOk(s', i)
    ensures forall j :: 0 <= j < |s.senders| ==> SenderOk(s', j)
  {
    forall j | 0 <= j < |s.senders| ensures SenderOk(s', j) {
      assert SenderOk(s, j);
    }
  }

  lemma {:induction false} DeferControl(s: State, i: nat, cb: nat, args: nat)
    requires Control(s) && Enabled(s, Defer(i, cb, args))
    ensures Control(DeferStep(s, i, cb, args))
  {
    var s' := DeferStep(s, i, cb, args);
    assert SenderOk(s, i);
    R.StartDeqOk(s.rings[i].ring);
    OtherSenders(s, s', i);
  }

  lemma {:induction false} StartFreeControl(s: State, i: nat)
    requires Control(s) && Enabled(s, StartFree(i))
    ensures Control(StartFreeStep(s, i))
  {
    assert SenderOk(s, i);
    R.StartDeqOk(s.rings[i].ring);
    OtherSenders(s, StartFreeStep(s, i), i);
  }

  lemma {:induction false} AllocControl(s: State, i: nat, c: Cell)
    requires Control(s) && Enabled(s, Alloc(i, c))
    ensures Control(AllocStep(s, i, c))
  {
    assert SenderOk(s, i);
    OtherSenders(s, AllocStep(s, i, c), i);
  }

  lemma {:induction false} WriteControl(s: State, i: nat, fails: bool)
    requires Control(s) && Enabled(s, Write(i, fails))
    ensures Control(WriteStep(s, i, fails))
  {
    assert SenderOk(s, i);
    OtherSenders(s, WriteStep(s, i, fails), i);
  }

  lemma {:induction false} DequeueControl(s: State, i: nat)
    requires Control(s) && i < |s.senders| && s.senders[i].SDequeue?
    ensures Control(DequeueStep(s, i))
  {
    assert SenderOk(s, i);
    R.DeqStepOk(s.rings[i].ring, s.rings[i].deq, s.rings[i].enq);
    OtherSenders(s, DequeueStep(s, i), i);
  }

  lemma {:induction false} DrainControl(s: State, i: nat)
    requires Control(s) && i < |s.senders| && s.senders[i].SDrain?
    ensures Control(DrainStep(s, i))
  {
    assert SenderOk(s, i);
    R.DeqStepOk(s.rings[i].ring, s.rings[i].deq, s.rings[i].enq);
    var (r, pc) := R.DeqStep(s.rings[i].ring, s.rings[i].deq);
    R.StartDeqOk(r);
    OtherSenders(s, DrainStep(s, i), i);
  }

  /** A cell in a sender's hand is not queued... */
  lemma {:induction false} HandNotQueued(s: State, i: nat)
    requires Sized(s) && OnePlace(View(s)) && i < |s.senders| && s.senders[i].SFill?
    ensures s.senders[i].cell != Q.STUB && s.senders[i].cell !in Q.Contents(s.q)
  {
    var c := s.senders[i].cell;
    var v := View(s);
    assert v.hands[i] == Got(c);
    assert At(v, c, InHand(i));
  }

  /** ... and no insert in progress holds it... */
  lemma {:induction false} HandNotHeld(s: State, i: nat, p: nat)
    requires Control(s) && OnePlace(View(s)) && i < |s.senders| && s.senders[i].SFill? && p < |s.senders|
    ensures s.senders[i].cell !in Q.Held(s.q.producers[p])
  {
    var c := s.senders[i].cell;
    var v := View(s);
    assert SenderOk(s, p) && SenderOk(s, i);
    assert v.hands[i] == Got(c) && v.hands[p] == HandOf(s.senders[p], s.q.producers[p]);
  }

  /** ... so it may be inserted. */
  lemma {:induction false} HandIsOwned(s: State, i: nat)
    requires Control(s) && OnePlace(View(s)) && i < |s.senders| && s.senders[i].SFill?
    ensures Q.Owned(s.q, [s.senders[i].cell])
  {
    var c := s.senders[i].cell;
    HandNotQueued(s, i);
    forall j | s.q.front <= j < |s.q.order|
      ensures s.q.order[j] != c
    {
      if s.q.order[j] == c {
        Q.InContents(s.q, j);
      }
    }
    forall p | 0 <= p < |s.q.producers|
      ensures c !in Q.Held(s.q.producers[p])
    {
      HandNotHeld(s, i, p);
    }
  }

  lemma {:induction false} FillControl(s: State, i: nat)
    requires Control(s) && i < |s.senders| && s.senders[i].SFill?
    ensures Control(FillStep(s, i))
  {
    assert SenderOk(s, i);
    OtherSenders(s, FillStep(s, i), i);
  }

  lemma {:induction false} FillQueue(s: State, i: nat)
    requires Control(s) && Q.Inv(s.q) && OnePlace(View(s)) && i < |s.senders| && s.senders[i].SFill?
    ensures Q.Inv(FillStep(s, i).q)
  {
    var c := s.senders[i].cell;
    assert SenderOk(s, i);
    HandIsOwned(s, i);
    Q.NextInv(s.q, Q.InsertList(i, [c]));
  }

  lemma {:induction false} InsertControl(s: State, i: nat)
    requires Control(s) && i < |s.senders| && s.senders[i].SInsert?
    ensures Control(InsertStep(s, i))
  {
    assert SenderOk(s, i);
    Q.ProduceFrame(s.q, i);
    OtherSenders(s, InsertStep(s, i), i);
  }

  // ---------------------------------------------------------------------------------------
  // Steps of the target
  // ---------------------------------------------------------------------------------------

  lemma {:induction false} PollToControl(s: State, q': Q.State)
    requires Control(s) && s.target.TPoll? && q'.producers == s.q.producers && !Q.NotPolling(q'.consumer)
    ensures Control(PollTo(s, q'))
  {
    var s' := PollTo(s, q');
    forall j | 0 <= j < |s.senders| ensures SenderOk(s', j) {
      assert SenderOk(s, j);
      PollKeepsSender(s, q', j);
    }
    PollKeepsTarget(s, q');
    hide SenderOk, TargetOk;
  }

  lemma {:induction false} PollKeepsSender(s: State, q': Q.State, j: nat)
    requires Sized(s) && s.target.TPoll? && q'.producers == s.q.producers && j < |s.senders| && SenderOk(s, j)
    ensures Sized(PollTo(s, q')) && SenderOk(PollTo(s, q'), j)
  {
    hide R.Inv;
  }

  lemma {:induction false} PollKeepsTarget(s: State, q': Q.State)
    requires TargetOk(s) && s.target.TPoll? && !Q.NotPolling(q'.consumer)
    ensures TargetOk(PollTo(s, q'))
  {
  }

  lemma {:induction false} RecycleControl(s: State)
    requires Control(s) && s.target.TRecycle?
    ensures Control(RecycleStep(s))
  {
    var s' := RecycleStep(s);
    forall j | 0 <= j < |s.senders| ensures SenderOk(s', j) {
      assert SenderOk(s, j);
      R.StartEnqOk(s.rings[j].ring, s.target.cell);
    }
  }

  lemma {:induction false} EnqueueControl(s: State)
    requires Control(s) && s.target.TEnqueue?
    ensures Control(EnqueueStep(s))
  {
    var s' := EnqueueStep(s);
    var i := s.target.ring;
    assert SenderOk(s, i);
    R.EnqStepOk(s.rings[i].ring, s.rings[i].enq, s.rings[i].deq);
    hide R.RingOk, R.EnqOk, R.DeqOk;
    forall j | 0 <= j < |s.senders| && j != i ensures SenderOk(s', j) {
      assert SenderOk(s, j);
    }
  }

  lemma {:induction false} TargetControl(s: State)
    requires Control(s)
    ensures Control(TargetStep(s))
  {
    var s' := TargetStep(s);
    match s.target
    case TPoll => {
      Q.ConsumeFrame(s.q);
      Q.ConsumeStays(s.q);
      PollToControl(s, Q.ConsumeStep(s.q));
    }
    case TRecycle(_, _) => RecycleControl(s);
    case TEnqueue(_, _) => EnqueueControl(s);
    case _ =>
      forall j | 0 <= j < |s.senders| ensures SenderOk(s', j) {
        assert SenderOk(s, j);
      }
  }

  lemma {:induction false} NextControl(s: State, a: Action)
    requires Control(s) && Enabled(s, a)
    ensures Control(Next(s, a))
  {
    match a
    case Defer(i, cb, args) => DeferControl(s, i, cb, args);
    case Alloc(i, c) => AllocControl(s, i, c);
    case Write(i, fails) => WriteControl(s, i, fails);
    case StartFree(i) => StartFreeControl(s, i);
    case Target => TargetControl(s);
    case Send(i) =>
      match s.senders[i]
      case SDequeue(_) => DequeueControl(s, i);
      case SFill(_, _) => FillControl(s, i);
      case SInsert(_, _) => InsertControl(s, i);
      case SDrain => DrainControl(s, i);
      case _ =>
  }

  lemma {:induction false} TargetQueueOf(s: State)
    ensures TargetStep(s).q ==
      if s.target.TNext? then Q.StartCall(s.q, Q.LoadNext(s.q.tail))
      else if s.target.TPoll? then Q.ConsumeStep(s.q)
      else s.q
  {
    assert PollTo(s, Q.ConsumeStep(s.q)).q == Q.ConsumeStep(s.q);
  }

  lemma {:induction false} TargetQueue(s: State)
    requires TargetOk(s) && Q.Inv(s.q)
    ensures Q.Inv(TargetStep(s).q)
  {
    TargetQueueOf(s);
    if s.target.TNext? {
      Q.StartPollInv(s.q);
    } else if s.target.TPoll? {
      Q.ConsumeInv(s.q);
    }
  }

  lemma {:induction false} InsertQueue(s: State, i: nat)
    requires Sized(s) && Q.Inv(s.q) && i < |s.senders| && SenderOk(s, i) && s.senders[i].SInsert?
    ensures Q.Inv(InsertStep(s, i).q)
  {
    Q.NextInv(s.q, Q.Produce(i));
  }

  lemma {:induction false} NextQueue(s: State, a: Action)
    requires Control(s) && Q.Inv(s.q) && OnePlace(View(s)) && Enabled(s, a)
    ensures Q.Inv(Next(s, a).q)
  {
    hide Q.Inv, OnePlace, TargetStep, FillStep, InsertStep, R.DeqStep;
    match a
    case Target => TargetQueue(s);
    case Send(i) => {
      if s.senders[i].SFill? {
        FillQueue(s, i);
      } else if s.senders[i].SInsert? {
        assert SenderOk(s, i);
        InsertQueue(s, i);
      }
    }
    case _ =>
  }

  // ---------------------------------------------------------------------------------------
  // Every step is a move of the abstract view
  // ---------------------------------------------------------------------------------------

  ghost predicate Refines(s: State, s': State, m: Move)
    requires Sized(s) && Sized(s')
  {
    Allowed(View(s), m) && View(s') == Apply(View(s), m)
  }

  lemma {:induction false} DeferRefines(s: State, i: nat, cb: nat, args: nat)
    requires Sized(s) && Enabled(s, Defer(i, cb, args)) && SenderOk(s, i)
    ensures Sized(DeferStep(s, i, cb, args)) && Refines(s, DeferStep(s, i, cb, args), Stutter)
  {
    var v, v' := View(s), View(DeferStep(s, i, cb, args));
    assert v'.hands == v.hands;
    assert v'.rings == v.rings;
  }

  lemma {:induction false} StartFreeRefines(s: State, i: nat)
    requires Sized(s) && Enabled(s, StartFree(i)) && SenderOk(s, i)
    ensures Sized(StartFreeStep(s, i)) && Refines(s, StartFreeStep(s, i), Stutter)
  {
    var v, v' := View(s), View(StartFreeStep(s, i));
    assert v'.hands == v.hands;
    assert v'.rings == v.rings;
  }

  lemma {:induction false} WriteRefines(s: State, i: nat, fails: bool)
    requires Sized(s) && Enabled(s, Write(i, fails)) && SenderOk(s, i)
    ensures Sized(WriteStep(s, i, fails)) && Refines(s, WriteStep(s, i, fails), Stutter)
  {
    var v, v' := View(s), View(WriteStep(s, i, fails));
    assert v'.hands == v.hands;
  }

  lemma {:induction false} AllocRefines(s: State, i: nat, c: Cell)
    requires Sized(s) && Enabled(s, Alloc(i, c)) && SenderOk(s, i)
    ensures Sized(AllocStep(s, i, c)) && Refines(s, AllocStep(s, i, c), Allocate(i, c))
  {
    var v, v' := View(s), View(AllocStep(s, i, c));
    assert v'.hands == v.hands[i := Got(c)];
  }

  lemma {:induction false} DequeueRefines(s: State, i: nat)
    requires Sized(s) && i < |s.senders| && SenderOk(s, i) && s.senders[i].SDequeue?
    ensures Sized(DequeueStep(s, i)) && Refines(s, DequeueStep(s, i), MoveOf(s, Send(i)))
  {
    R.DeqStepOk(s.rings[i].ring, s.rings[i].deq, s.rings[i].enq);
    var (r, pc) := R.DeqStep(s.rings[i].ring, s.rings[i].deq);
    DequeueView(s, i, r, pc);
  }

  /** A dequeuing step as the view sees it. */
  ghost predicate Dequeues(s: R.State, r: R.Ring, pc: R.DeqPc) {
    if s.deq.DeqPublish? then pc == R.DeqDone(true, s.deq.data) && R.Items(s.ring) == [s.deq.data] + R.Items(r)
    else !(pc.DeqDone? && pc.ok) && R.Items(r) == R.Items(s.ring)
  }

  lemma {:induction false} DequeueView(s: State, i: nat, r: R.Ring, pc: R.DeqPc)
    requires Sized(s) && i < |s.senders| && s.senders[i].SDequeue? && s.q.producers[i].Ready?
    requires Dequeues(s.rings[i], r, pc)
    ensures Sized(DequeueTo(s, i, r, pc)) && Refines(s, DequeueTo(s, i, r, pc), MoveOf(s, Send(i)))
  {
    var v, v' := View(s), View(DequeueTo(s, i, r, pc));
    assert v.rings[i] == R.Items(s.rings[i].ring);
    if s.rings[i].deq.DeqPublish? {
      assert v'.hands == v.hands[i := Got(pc.data)];
      assert v'.rings == v.rings[i := v.rings[i][1..]];
    } else {
      assert v'.hands == v.hands;
      assert v'.rings == v.rings;
    }
  }

  lemma {:induction false} DrainRefines(s: State, i: nat)
    requires Sized(s) && i < |s.senders| && SenderOk(s, i) && s.senders[i].SDrain?
    ensures Sized(DrainStep(s, i)) && Refines(s, DrainStep(s, i), MoveOf(s, Send(i)))
  {
    R.DeqStepOk(s.rings[i].ring, s.rings[i].deq, s.rings[i].enq);
    var (r, pc) := R.DeqStep(s.rings[i].ring, s.rings[i].deq);
    DrainView(s, i, r, pc);
  }

  lemma {:induction false} DrainView(s: State, i: nat, r: R.Ring, pc: R.DeqPc)
    requires Sized(s) && i < |s.senders| && s.senders[i].SDrain? && s.q.producers[i].Ready?
    requires Dequeues(s.rings[i], r, pc)
    ensures Sized(DrainTo(s, i, r, pc)) && Refines(s, DrainTo(s, i, r, pc), MoveOf(s, Send(i)))
  {
    var v, v' := View(s), View(DrainTo(s, i, r, pc));
    assert v.rings[i] == R.Items(s.rings[i].ring);
    assert v'.hands == v.hands;
    if s.rings[i].deq.DeqPublish? {
      assert v'.rings == v.rings[i := v.rings[i][1..]];
    } else {
      assert v'.rings == v.rings;
    }
  }

  lemma {:induction false} FillRefines(s: State, i: nat)
    requires Sized(s) && i < |s.senders| && SenderOk(s, i) && s.senders[i].SFill?
    ensures Sized(FillStep(s, i)) && Refines(s, FillStep(s, i), MoveOf(s, Send(i)))
  {
    var v, v' := View(s), View(FillStep(s, i));
    assert v'.hands == v.hands[i := Filled(s.senders[i].cell, s.senders[i].cmd)];
  }

  lemma {:induction false} InsertRefines(s: State, i: nat)
    requires Sized(s) && Q.Inv(s.q) && i < |s.senders| && SenderOk(s, i) && s.senders[i].SInsert?
    ensures Sized(InsertStep(s, i)) && Refines(s, InsertStep(s, i), MoveOf(s, Send(i)))
  {
    assert Q.HeldOk(s.q, s.q.producers[i]);
    Q.ProduceFrame(s.q, i);
    Q.ProduceContents(s.q, i);
    InsertView(s, i, Q.ProduceStep(s.q, i));
  }

  lemma {:induction false} InsertView(s: State, i: nat, q': Q.State)
    requires Sized(s) && i < |s.senders| && s.senders[i].SInsert? && |q'.producers| == |s.q.producers|
    requires forall j :: 0 <= j < |s.q.producers| && j != i ==> q'.producers[j] == s.q.producers[j]
    requires
      var c := s.senders[i].cell;
      match s.q.producers[i]
      case StoreNull(_) => q'.producers[i].Exchange? && Q.Contents(q') == Q.Contents(s.q)
      case Exchange(_) => q'.producers[i].Link? && Q.Contents(q') == Q.Contents(s.q) + [c]
      case Link(_, _, _) => q'.producers[i].Ready? && Q.Contents(q') == Q.Contents(s.q)
      case _ => false
    ensures Sized(InsertTo(s, i, q')) && Refines(s, InsertTo(s, i, q'), MoveOf(s, Send(i)))
  {
    var v, v' := View(s), View(InsertTo(s, i, q'));
    if s.q.producers[i].Exchange? {
      assert v.hands[i] == Filled(s.senders[i].cell, s.senders[i].cmd);
      assert v'.hands == v.hands[i := Free];
    } else {
      assert v'.hands == v.hands;
    }
  }

  lemma {:induction false} PollRefines(s: State)
    requires Control(s) && Q.Inv(s.q) && s.target.TPoll?
    ensures Sized(PollStep(s)) && Refines(s, PollStep(s), MoveOf(s, Target))
  {
    Q.ConsumeFrame(s.q);
    Q.ConsumeContents(s.q);
    Q.TakeMeansItem(s.q);
    PollView(s, Q.ConsumeStep(s.q));
  }

  lemma {:induction false} PollView(s: State, q': Q.State)
    requires Sized(s) && s.target.TPoll? && q'.producers == s.q.producers
    requires
      if s.q.consumer.Advance? || s.q.consumer.FinalAdvance?
      then q'.consumer == Q.Polled(Q.Item(s.q.consumer.tail)) && Q.Contents(s.q) == [s.q.consumer.tail] + Q.Contents(q')
      else !(q'.consumer.Polled? && q'.consumer.result.Item?) && Q.Contents(q') == Q.Contents(s.q)
    ensures Sized(PollTo(s, q')) && Refines(s, PollTo(s, q'), MoveOf(s, Target))
  {
    var v, v' := View(s), View(PollTo(s, q'));
    assert v'.hands == v.hands;
    assert v'.rings == v.rings;
  }

  lemma {:induction false} EnqueueRefines(s: State)
    requires Control(s) && s.target.TEnqueue?
    ensures Sized(EnqueueStep(s)) && Refines(s, EnqueueStep(s), MoveOf(s, Target))
  {
    var i := s.target.ring;
    assert SenderOk(s, i);
    R.EnqStepOk(s.rings[i].ring, s.rings[i].enq, s.rings[i].deq);
    var (r, pc) := R.EnqStep(s.rings[i].ring, s.rings[i].enq);
    EnqueueView(s, r, pc);
  }

  lemma {:induction false} EnqueueView(s: State, r: R.Ring, pc: R.EnqPc)
    requires Sized(s) && s.target.TEnqueue? && s.target.ring < |s.rings|
    requires
      var t := s.rings[s.target.ring];
      && R.EnqStep(t.ring, t.enq) == (r, pc)
      && R.Items(r) == R.Items(t.ring) + (if t.enq.EnqPublish? then [s.target.cell] else [])
      && (pc.EnqDone? ==> pc.ok == t.enq.EnqPublish?)
      && (t.enq.EnqPublish? ==> pc.EnqDone?)
    ensures Sized(EnqueueTo(s, r, pc)) && Refines(s, EnqueueTo(s, r, pc), MoveOf(s, Target))
  {
    var i := s.target.ring;
    var v, v' := View(s), View(EnqueueTo(s, r, pc));
    assert v'.hands == v.hands;
    if s.rings[i].enq.EnqPublish? {
      assert v'.rings == v.rings[i := v.rings[i] + [s.target.cell]];
    } else {
      assert v'.rings == v.rings;
    }
  }

  lemma {:induction false} RecycleRefines(s: State)
    requires Control(s) && s.target.TRecycle?
    ensures Sized(RecycleStep(s)) && Refines(s, RecycleStep(s), MoveOf(s, Target))
  {
    var v, v' := View(s), View(RecycleStep(s));
    assert v'.hands == v.hands;
    assert v'.rings == v.rings;
  }

  lemma {:induction false} TargetRefines(s: State)
    requires Control(s) && Q.Inv(s.q) && Faithful(View(s))
    ensures Sized(TargetStep(s)) && Refines(s, TargetStep(s), MoveOf(s, Target))
  {
    match s.target
    case TPoll => PollRefines(s);
    case TRecycle(_, _) => RecycleRefines(s);
    case TEnqueue(_, _) => EnqueueRefines(s);
    case _ => PlainRefines(s);
  }

  /** The steps that move no cell. */
  lemma {:induction false} PlainRefines(s: State)
    requires Sized(s) && Faithful(View(s)) && (s.target.TWait? || s.target.TNext? || s.target.TRun?)
    ensures Sized(TargetStep(s)) && Refines(s, TargetStep(s), MoveOf(s, Target))
  {
    var v, v' := View(s), View(TargetStep(s));
    assert v'.hands == v.hands;
    assert v'.rings == v.rings;
  }

  lemma {:induction false} NextRefines(s: State, a: Action)
    requires Control(s) && Q.Inv(s.q) && Faithful(View(s)) && Enabled(s, a)
    ensures Sized(Next(s, a)) && Refines(s, Next(s, a), MoveOf(s, a))
  {
    hide Q.Inv, Faithful, Refines, SenderOk, TargetOk, HomesOk;
    hide TargetStep, DequeueStep, FillStep, InsertStep, DrainStep;
    assert !a.Target? ==> SenderOk(s, a.i);
    match a
    case Defer(i, cb, args) => DeferRefines(s, i, cb, args);
    case Alloc(i, c) => AllocRefines(s, i, c);
    case Write(i, fails) => WriteRefines(s, i, fails);
    case StartFree(i) => StartFreeRefines(s, i);
    case Target => TargetRefines(s);
    case Send(i) =>
      match s.senders[i]
      case SDequeue(_) => DequeueRefines(s, i);
      case SFill(_, _) => FillRefines(s, i);
      case SInsert(_, _) => InsertRefines(s, i);
      case SDrain => DrainRefines(s, i);
      case _ =>
  }

  // ---------------------------------------------------------------------------------------
  // No wakeup is lost
  // ---------------------------------------------------------------------------------------

  /** Steps that leave the queue, the counter and everybody's debts alone. */
  lemma {:induction false} WakeFrame(s: State, s': State)
    requires Wake(s) && s'.target == s.target && s'.eventfd == s.eventfd && s'.writes == s.writes
    requires Q.Contents(s'.q) == Q.Contents(s.q) && s'.q.overlap == s.q.overlap
    requires |s'.senders| == |s.senders| && |s'.q.producers| == |s.q.producers|
    requires forall j ::
      0 <= j < |s.senders| && j < |s.q.producers| && (s.senders[j].SWrite? || s.q.producers[j].Link?) ==>
      s'.senders[j].SWrite? || s'.q.producers[j].Link?
    ensures Wake(s')
  {
    if Owing(s) {
      var j :| 0 <= j < |s.senders| && j < |s.q.producers| && (s.senders[j].SWrite? || s.q.producers[j].Link?);
      assert s'.senders[j].SWrite? || s'.q.producers[j].Link?;
    }
  }

  lemma {:induction false} InsertWake(s: State, i: nat)
    requires Sized(s) && Q.Inv(s.q) && i < |s.senders| && SenderOk(s, i) && s.senders[i].SInsert? && Wake(s)
    ensures Wake(InsertStep(s, i))
  {
    var s' := InsertStep(s, i);
    Q.ProduceFrame(s.q, i);
    if s.q.producers[i].StoreNull? {
      assert Q.HeldOk(s.q, s.q.producers[i]);
      Q.ProduceContents(s.q, i);
      WakeFrame(s, s');
    } else {
      assert s'.senders[i].SWrite? || s'.q.producers[i].Link?;
    }
  }

  lemma {:induction false} PollWake(s: State)
    requires Sized(s) && Q.Inv(s.q) && TargetOk(s) && s.target.TPoll? && Wake(s)
    ensures Wake(PollStep(s))
  {
    var q' := Q.ConsumeStep(s.q);
    Q.ConsumeFrame(s.q);
    if q'.consumer.Polled? {
      Q.PollAnswer(s.q);
    }
    PollToWake(s, q');
  }

  lemma {:induction false} PollToWake(s: State, q': Q.State)
    requires Sized(s) && s.target.TPoll? && Wake(s)
    requires q'.producers == s.q.producers && q'.overlap == s.q.overlap
    requires q'.consumer.Polled? ==> Q.Answered(s.q, q', q'.consumer.result)
    ensures Wake(PollTo(s, q'))
  {
    var s' := PollTo(s, q');
    assert Owing(s) ==> Owing(s');
  }

  lemma {:induction false} TargetWake(s: State)
    requires Control(s) && Q.Inv(s.q) && Wake(s)
    ensures Wake(TargetStep(s))
  {
    match s.target
    case TPoll => {
      hide SenderOk, Q.Inv, Wake;
      PollWake(s);
    }
    case TNext => NextPollWake(s);
    case _ => AwayWake(s);
  }

  /** Away from the queue the target leaves the producers alone, and waits again only after a poll. */
  lemma {:induction false} AwayWake(s: State)
    requires Wake(s) && !s.target.TPoll? && !s.target.TNext?
    ensures Wake(TargetStep(s))
  {
    hide Q.Contents, Owing;
  }

  /** A poll that begins while an insert is in flight: its sender has still to write. */
  lemma {:induction false} NextPollWake(s: State)
    requires Sized(s) && s.target.TNext? && Wake(s)
    ensures Wake(TargetStep(s))
  {
    hide Q.Contents;
    if Q.AnyLink(s.q) {
      var p :| 0 <= p < |s.q.producers| && s.q.producers[p].Link?;
      assert TargetStep(s).q.producers[p].Link?;
    }
  }

  lemma {:induction false} SendWake(s: State, i: nat)
    requires Sized(s) && i < |s.senders| && SenderOk(s, i) && Wake(s) && Enabled(s, Send(i)) && !s.senders[i].SInsert?
    ensures Wake(SendStep(s, i))
  {
    WakeFrame(s, SendStep(s, i));
  }

  lemma {:induction false} WriteWake(s: State, i: nat, fails: bool)
    requires Wake(s) && Enabled(s, Write(i, fails))
    ensures Wake(WriteStep(s, i, fails))
  {
  }

  lemma {:induction false} NextWake(s: State, a: Action)
    requires Control(s) && Q.Inv(s.q) && Wake(s) && Enabled(s, a)
    ensures Wake(Next(s, a))
  {
    hide Wake, Q.Inv;
    match a
    case Send(i) => {
      assert SenderOk(s, i);
      if s.senders[i].SInsert? {
        InsertWake(s, i);
      } else {
        SendWake(s, i);
      }
    }
    case Write(i, fails) => WriteWake(s, i, fails);
    case Target => TargetWake(s);
    case _ => WakeFrame(s, Next(s, a));
  }

  // ---------------------------------------------------------------------------------------
  // Every run
  // ---------------------------------------------------------------------------------------

  lemma {:induction false} NextInv(s: State, a: Action)
    requires Inv(s) && Enabled(s, a)
    ensures Inv(Next(s, a))
  {
    hide Q.Inv, Wake, OnePlace, Faithful, Next;
    NextControl(s, a);
    NextQueue(s, a);
    NextRefines(s, a);
    MoveOnePlace(View(s), MoveOf(s, a));
    MoveFaithful(View(s), MoveOf(s, a));
    NextWake(s, a);
  }

  lemma {:induction false} InitInv(threaded: seq<bool>, bufs: seq<seq<nat>>)
    requires |bufs| == |threaded| && forall i :: 0 <= i < |bufs| ==> bufs[i] != []
    ensures Inv(Init(threaded, bufs))
  {
    var s := Init(threaded, bufs);
    Q.InitInv(|threaded|);
    Q.InitEmpty(|threaded|);
    forall i | 0 <= i < |bufs| ensures SenderOk(s, i) {
      R.InitInv(bufs[i]);
    }
    InitFlow(s);
    hide SenderOk, Q.Inv, Q.Contents, OnePlace, Faithful;
  }

  lemma {:induction false} InitFlow(s: State)
    requires Sized(s) && Q.Contents(s.q) == [] && s.target.TWait?
    requires s.payload == map[] && s.place == map[] && s.log == [] && s.ran == []
    requires forall i :: 0 <= i < |s.senders| ==> s.senders[i].SIdle? && R.Items(s.rings[i].ring) == []
    ensures OnePlace(View(s)) && Faithful(View(s))
  {
    hide Q.Contents, R.Items;
  }

  ghost predicate ValidRun(s: State, actions: seq<Action>)
    decreases |actions|
  {
    actions != [] ==> Sized(s) && Enabled(s, actions[0]) && ValidRun(Next(s, actions[0]), actions[1..])
  }

  ghost function Final(s: State, actions: seq<Action>): State
    requires ValidRun(s, actions)
    decreases |actions|
  {
    if actions == [] then s else Final(Next(s, actions[0]), actions[1..])
  }

  lemma {:induction false} RunInv(s: State, actions: seq<Action>)
    requires Inv(s) && ValidRun(s, actions)
    ensures Inv(Final(s, actions))
    decreases |actions|
  {
    if actions != [] {
      NextInv(s, actions[0]);
      RunInv(Next(s, actions[0]), actions[1..]);
    }
  }

  /** A channel as evthr_new sets it up: every ring has a buffer. */
  ghost predicate Fresh(s: State) {
    exists threaded: seq<bool>, bufs: seq<seq<nat>> ::
      |bufs| == |threaded| && (forall i :: 0 <= i < |bufs| ==> bufs[i] != []) && s == Init(threaded, bufs)
  }

  lemma {:induction false} ReachableInv(s: State, actions: seq<Action>)
    requires Fresh(s) && ValidRun(s, actions)
    ensures Inv(Final(s, actions))
  {
    var threaded: seq<bool>, bufs: seq<seq<nat>> :|
      |bufs| == |threaded| && (forall i :: 0 <= i < |bufs| ==> bufs[i] != []) && s == Init(threaded, bufs);
    InitInv(threaded, bufs);
    RunInv(s, actions);
  }

  /**
   No lost wakeup: in every run, when the target is outside its drain loop, commands are queued
   and no sender is between its head exchange and its eventfd write, the eventfd is readable,
   exactly unless every write since the target last read it failed outright. The drain loop
   stopping on RETRY as well as on EMPTY does no harm, nor does a write refused with EAGAIN.
   */
  lemma {:induction false} NoLostWakeup(s: State, actions: seq<Action>)
    requires Fresh(s) && ValidRun(s, actions)
    ensures var s' := Final(s, actions);
      s'.target.TWait? && Q.Contents(s'.q) != [] && !Owing(s') ==> (s'.eventfd > 0 <==> !s'.writes.OnlyFailed?)
  {
    ReachableInv(s, actions);
  }

  /** One sender without a ring defers one command, and its eventfd write fails. */
  function StrandingQueue(k: nat): Q.State {
    var q := Q.Init(1);
    if k <= 2 then q
    else if k == 3 then q.(producers := [Q.StoreNull([5])], holder := map[5 := 0])
    else if k == 4 then
      q.(producers := [Q.Exchange([5])], holder := map[5 := 0], next := map[Q.STUB := Q.Null, 5 := Q.Null])
    else if k == 5 then
      q.(producers := [Q.Link(5, Q.STUB, 0)], holder := map[5 := 0], next := map[Q.STUB := Q.Null, 5 := Q.Null],
         head := 5, order := [Q.STUB, 5], batches := [[5]], owed := map[0 := Q.Producer(0)])
    else
      q.(holder := map[5 := 0], next := map[Q.STUB := Q.At(5), 5 := Q.Null], head := 5, order := [Q.STUB, 5],
        batches := [[5]])
  }

  function StrandingState(buf: seq<nat>, k: nat): State {
    var cmd := Cmd(1, 7, None);
    Init([false], [buf]).(
      q := StrandingQueue(k),
      senders := [if k == 0 then SIdle(NotCalled) else if k == 1 then SAlloc(cmd) else if k == 2 then SFill(cmd, 5)
                  else if k <= 5 then SInsert(cmd, 5) else if k == 6 then SWrite else SIdle(FatalResult)],
      payload := if k <= 2 then map[] else map[5 := cmd],
      place := if k <= 1 then map[] else map[5 := if k <= 4 then InHand(0) else Queued],
      log := if k <= 4 then [] else [cmd],
      writes := if k >= 7 then OnlyFailed else NoWrites)
  }

  function StrandingAction(k: nat): Action {
    if k == 0 then Defer(0, 1, 7) else if k == 1 then Alloc(0, 5) else if k <= 5 then Send(0) else Write(0, true)
  }

  lemma {:induction false} StrandingStep(buf: seq<nat>, k: nat)
    requires k < 7
    ensures var s := StrandingState(buf, k);
      Sized(s) && Enabled(s, StrandingAction(k)) && Next(s, StrandingAction(k)) == StrandingState(buf, k + 1)
  {
    var s, s' := StrandingState(buf, k), StrandingState(buf, k + 1);
    assert Q.Init(1).producers == [Q.Ready];
    if k <= 2 {
      if k == 2 {
        StrandingInsert(2);
      }
    } else if k < 6 {
      StrandingInsert(k);
    }
  }

  lemma {:induction false} StrandingInsert(k: nat)
    requires 2 <= k < 6
    ensures |StrandingQueue(k).producers| == 1
    ensures StrandingQueue(k + 1) ==
      if k == 2 then Q.StartInsert(StrandingQueue(k), 0, Q.StoreNull([5])) else Q.ProduceStep(StrandingQueue(k), 0)
    ensures StrandingQueue(k).producers[0] ==
      if k == 2 then Q.Ready else if k == 3 then Q.StoreNull([5]) else if k == 4 then Q.Exchange([5])
        else Q.Link(5, Q.STUB, 0)
  {
    assert Q.Init(1).producers == [Q.Ready];
  }

  lemma {:induction false} StrandingRun(buf: seq<nat>, k: nat) returns (actions: seq<Action>)
    requires k <= 7
    ensures ValidRun(StrandingState(buf, k), actions)
    ensures Final(StrandingState(buf, k), actions) == StrandingState(buf, 7)
    decreases 7 - k
  {
    if k == 7 {
      actions := [];
    } else {
      StrandingStep(buf, k);
      var rest := StrandingRun(buf, k + 1);
      actions := [StrandingAction(k)] + rest;
      assert actions[1..] == rest;
    }
  }

  /** The exception is real: one failed write leaves a command queued with nobody to wake the target. */
  lemma {:induction false} FailedWriteStrands(buf: seq<nat>) returns (actions: seq<Action>)
    requires buf != []
    ensures ValidRun(Init([false], [buf]), actions)
    ensures var s := Final(Init([false], [buf]), actions);
      s.target.TWait? && Q.Contents(s.q) != [] && s.eventfd == 0 && !Owing(s) && s.writes.OnlyFailed?
  {
    var s0, s7 := Init([false], [buf]), StrandingState(buf, 7);
    assert s0.senders == [SIdle(NotCalled)];
    assert s0 == StrandingState(buf, 0);
    actions := StrandingRun(buf, 0);
    Q.InContents(s7.q, 1);
    assert Q.Init(1).producers == [Q.Ready];
  }

  /**
   Every cell ever allocated is, at every moment of every run, in exactly one place: one sender's
   hand, the queue (once), the target, one ring (once), or freed.
   */
  lemma {:induction false} CellsInOnePlace(s: State, actions: seq<Action>)
    requires Fresh(s) && ValidRun(s, actions)
    ensures var s' := Final(s, actions); Sized(s') && OnePlace(View(s'))
  {
    ReachableInv(s, actions);
  }

  /**
   Each deferred command runs once, in the order of the head exchanges, with the cb and args of
   its own evthr_defer call: what has run, what is about to, and what the queued cells hold are
   together the log of submissions.
   */
  lemma {:induction false} CommandsRunOnceInOrder(s: State, actions: seq<Action>)
    requires Fresh(s) && ValidRun(s, actions)
    ensures var s' := Final(s, actions);
      && Sized(s') && Faithful(View(s'))
      && s'.ran + Waiting(View(s')) + Payloads(s'.payload, Q.Contents(s'.q)) == s'.log
  {
    ReachableInv(s, actions);
  }

  /** evthr_free's drain ends only when the ring is empty; whether it stays so is the matter of Retirement.dfy. */
  lemma {:induction false} DrainLeavesNothing(s: State, i: nat)
    requires Inv(s) && i < |s.senders| && s.senders[i].SDrain?
    requires i < |DrainStep(s, i).senders| && DrainStep(s, i).senders[i].SGone?
    ensures R.Items(s.rings[i].ring) == [] && View(s).rings[i] == []
  {
    assert SenderOk(s, i);
    R.DeqStepOk(s.rings[i].ring, s.rings[i].deq, s.rings[i].enq);
  }

  // ---------------------------------------------------------------------------------------
  // A woken target delivers everything
  // ---------------------------------------------------------------------------------------

  function PollRank(pc: Q.ConsumerPc): nat {
    match pc
    case LoadNext(_) => 11
    case SkipStub(_) => 10
    case ReloadNext(_) => 9
    case LoadHead(_) => 8
    case StubStore(_) => 7
    case StubExchange(_) => 6
    case StubLink(_, _, _) => 5
    case FinalNext(_) => 4
    case FinalAdvance(_, _) => 3
    case Advance(_, _) => 3
    case LoadHeadAtStub => 2
    case _ => 0
  }

  function EnqRank(pc: R.EnqPc): nat {
    match pc
    case EnqLoadTail(_, _) => 3
    case EnqWrite(_, _) => 2
    case EnqPublish(_, _) => 1
    case _ => 0
  }

  function Rank(s: State): nat {
    match s.target
    case TRun(_) => 30
    case TRecycle(_, _) => 29
    case TEnqueue(_, i) => 20 + (if i < |s.rings| then EnqRank(s.rings[i].enq) else 0)
    case TNext => 12
    case TPoll => PollRank(s.q.consumer)
    case TWait => 0
  }

  /** A poll never waits for anybody: each of its steps brings it nearer to its answer. */
  lemma {:induction false} PollIsWaitFree(q: Q.State)
    requires !Q.ConsumerFree(q) && !q.consumer.EmptyNext? && !q.consumer.EmptyHead?
    ensures PollRank(Q.ConsumeStep(q).consumer) < PollRank(q.consumer)
  {
    LoadIsWaitFree(q);
  }

  lemma {:induction false} LoadIsWaitFree(q: Q.State)
    requires !q.consumer.EmptyNext? && !q.consumer.EmptyHead?
    ensures Q.Reads(q.consumer) ==> PollRank(Q.AfterLoad(q)) < PollRank(q.consumer)
  {
  }

  /** Nobody is between exchange and link, and nobody was since the current poll began. */
  ghost predicate Quiet(s: State) {
    !Q.AnyLink(s.q) && (s.target.TPoll? ==> !s.q.overlap)
  }

  ghost predicate Progress(s: State, s': State) {
    && Quiet(s') && s'.log == s.log
    && (s'.target.TWait? ==> Q.Contents(s'.q) == [])
    && (|| |Q.Contents(s'.q)| < |Q.Contents(s.q)|
        || (|Q.Contents(s'.q)| == |Q.Contents(s.q)| && Rank(s') < Rank(s)))
  }

  lemma {:induction false} PollProgress(s: State)
    requires Sized(s) && Q.Inv(s.q) && TargetOk(s) && Quiet(s) && s.target.TPoll?
    ensures Progress(s, PollStep(s))
  {
    var q' := Q.ConsumeStep(s.q);
    Q.ConsumeFrame(s.q);
    PollIsWaitFree(s.q);
    Q.ConsumeContents(s.q);
    Q.TakeMeansItem(s.q);
    if q'.consumer.Polled? {
      Q.PollAnswer(s.q);
    }
    PollToProgress(s, q');
  }

  lemma {:induction false} PollToProgress(s: State, q': Q.State)
    requires Sized(s) && Quiet(s) && s.target.TPoll?
    requires q'.producers == s.q.producers && q'.overlap == s.q.overlap
    requires PollRank(q'.consumer) < PollRank(s.q.consumer)
    requires q'.consumer.Polled? ==> Q.Answered(s.q, q', q'.consumer.result)
    requires !q'.consumer.Polled? ==> Q.Contents(q') == Q.Contents(s.q)
    ensures Progress(s, PollTo(s, q'))
  {
  }

  /** Alone, every step of a draining target brings it nearer to an empty queue. */
  lemma {:induction false} TargetProgress(s: State)
    requires Inv(s) && Quiet(s) && !s.target.TWait?
    ensures Progress(s, TargetStep(s))
  {
    hide Wake, Q.Inv, OnePlace;
    match s.target
    case TPoll => PollProgress(s);
    case TEnqueue(_, i) => assert SenderOk(s, i);
    case TRun(c) => assert View(s).busy == Holds(c, false);
    case _ =>
  }

  /** n steps of the target alone. */
  ghost function Alone(s: State, n: nat): State
    decreases n
  {
    if n == 0 then s else Alone(TargetStep(s), n - 1)
  }

  lemma {:induction false} TargetInv(s: State)
    requires Inv(s)
    ensures Inv(TargetStep(s))
  {
    hide Q.Inv, OnePlace, Faithful, Wake, SenderOk, TargetOk, HomesOk, TargetStep;
    NextInv(s, Target);
  }

  /** Everything submitted has run, and the target waits at an empty queue. */
  ghost predicate AllRun(s: State) {
    s.target.TWait? && Q.Contents(s.q) == [] && s.ran == s.log
  }

  lemma {:induction false} EmptyMeansAllRun(s: State)
    requires Inv(s) && s.target.TWait? && Q.Contents(s.q) == []
    ensures s.ran == s.log
  {
    EmptyFlow(View(s));
  }

  lemma {:induction false} EmptyFlow(f: Flow)
    requires Faithful(f) && f.queue == [] && f.busy.Nothing?
    ensures f.ran == f.log
  {
  }

  /**
   What a caller can rely on: at a target that waits with nothing to read, no sender on its way to a
   write and not every last write failed, everything submitted has run.
   */
  lemma {:induction false} WaitingMeansAllRun(s: State, actions: seq<Action>)
    requires Fresh(s) && ValidRun(s, actions)
    requires var s' := Final(s, actions); s'.target.TWait? && s'.eventfd == 0 && !Owing(s') && !s'.writes.OnlyFailed?
    ensures AllRun(Final(s, actions))
  {
    hide Inv, Owing, Q.Contents, ValidRun, Final;
    ReachableInv(s, actions);
    NoLostWakeup(s, actions);
    EmptyMeansAllRun(Final(s, actions));
  }

  /** One step of a draining target alone. */
  lemma {:induction false} DrainOnce(s: State) returns (s1: State)
    requires Inv(s) && Quiet(s) && !s.target.TWait?
    ensures Progress(s, s1) && Inv(s1) && (s1.target.TWait? ==> AllRun(s1))
    ensures forall k: nat :: Alone(s1, k) == Alone(s, k + 1)
  {
    s1 := TargetStep(s);
    TargetProgress(s);
    TargetInv(s);
    if s1.target.TWait? {
      EmptyMeansAllRun(s1);
    }
  }

  /**
   A target in its drain loop with no insert in flight runs, by itself, every command submitted so
   far, leaves the queue empty and goes back to waiting.
   */
  lemma {:induction false} DrainDelivers(s: State) returns (n: nat)
    requires Inv(s) && Quiet(s) && !s.target.TWait?
    ensures AllRun(Alone(s, n)) && Alone(s, n).log == s.log
    decreases |Q.Contents(s.q)|, Rank(s)
  {
    hide Inv, Quiet, AllRun, Rank, Q.Contents, TargetStep;
    var s1 := DrainOnce(s);
    if s1.target.TWait? {
      n := 1;
      assert Alone(s1, 0) == Alone(s, 1);
    } else {
      var k := DrainDelivers(s1);
      n := k + 1;
      assert Alone(s1, k) == Alone(s, n);
    }
  }

  lemma {:induction false} WakeOnce(s: State) returns (s1: State)
    requires Inv(s) && s.target.TWait? && s.eventfd > 0 && !Q.AnyLink(s.q)
    ensures Inv(s1) && Quiet(s1) && s1.target.TNext? && s1.log == s.log
    ensures forall k: nat :: Alone(s1, k) == Alone(s, k + 1)
  {
    s1 := TargetStep(s);
    TargetInv(s);
  }

  /** So a wakeup is all it takes: a readable eventfd and no insert in flight lead to everything run. */
  lemma {:induction false} WokenTargetDelivers(s: State) returns (n: nat)
    requires Inv(s) && s.target.TWait? && s.eventfd > 0 && !Q.AnyLink(s.q)
    ensures AllRun(Alone(s, n)) && Alone(s, n).log == s.log
  {
    hide Inv, Alone, Quiet, AllRun, Q.AnyLink;
    var s1 := WakeOnce(s);
    var k := DrainDelivers(s1);
    n := k + 1;
    assert Alone(s1, k) == Alone(s, n);
  }
}
