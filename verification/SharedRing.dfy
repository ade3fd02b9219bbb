/**
 One ring of include/evhtp/spsc_queue.h with any number of enqueuers, as it is when several target
 threads give cells back to one sender: when does it still hold what was put in?

 The code publishes without asking whether the head is still where it was loaded. So an enqueue is
 right exactly when such a question would have been answered yes.
 */
module SharedRing {
  import opened RingBuffer
  import opened SpscQueue

  /**
   Where an enqueuer is. The cached index is shared too, so reading and writing it are steps of their
   own: `Loaded` has the head and is about to look at the cached tail, `Reloaded` has the tail (of
   when `seen` items were taken) and is about to cache it, `Retest` is about to look again.
   */
  datatype Pc =
    | Loaded(data: Item, head: nat)
    | Reloaded(data: Item, head: nat, tail: nat, seen: nat)
    | Retest(data: Item, head: nat)
    | At(pc: EnqPc)

  datatype Shared = Shared(ring: Ring, enqs: seq<Pc>, deq: DeqPc)

  datatype Act = Enq(i: nat, data: Item) | EnqOn(i: nat) | Deq | DeqOn

  function Begin(buf: seq<Item>, n: nat): Shared {
    Shared(InitRing(buf), seq(n, _ => At(EnqIdle)), DeqIdle)
  }

  /** Between its head load and its answer. */
  predicate Active(pc: Pc) {
    !(pc.At? && (pc.pc.EnqIdle? || pc.pc.EnqDone?))
  }

  predicate May(s: Shared, a: Act) {
    match a
    case Enq(i, _) => i < |s.enqs| && !Active(s.enqs[i])
    case EnqOn(i) => i < |s.enqs| && Active(s.enqs[i])
    case Deq => s.deq.DeqIdle? || s.deq.DeqDone?
    case DeqOn => !(s.deq.DeqIdle? || s.deq.DeqDone?)
  }

  /** One access of spsc_enqueue to what the enqueuers share. */
  function SharedStep(r: Ring, pc: Pc): (Ring, Pc) {
    match pc
    case Loaded(data, head) =>
      (r, At(if Succ(head, |r.buf|) == r.cachedTail then EnqLoadTail(data, head) else EnqWrite(data, head)))
    case Reloaded(data, head, tail, seen) => (r.(cachedTail := tail, seenGot := seen), Retest(data, head))
    case Retest(data, head) =>
      (r, At(if Succ(head, |r.buf|) == r.cachedTail then EnqDone(false) else EnqWrite(data, head)))
    case At(EnqLoadTail(data, head)) => (r, Reloaded(data, head, r.tail, |r.got|))
    case At(pc) => var (r', pc') := EnqStep(r, pc); (r', At(pc'))
  }

  function Do(s: Shared, a: Act): Shared
    requires May(s, a)
  {
    match a
    case Enq(i, data) => s.(enqs := s.enqs[i := Loaded(data, s.ring.head)])
    case EnqOn(i) => var (r, pc) := SharedStep(s.ring, s.enqs[i]); s.(ring := r, enqs := s.enqs[i := pc])
    case Deq => s.(deq := StartDeq(s.ring))
    case DeqOn => var (r, pc) := DeqStep(s.ring, s.deq); s.(ring := r, deq := pc)
  }

  predicate Runs(s: Shared, acts: seq<Act>)
    decreases |acts|
  {
    acts != [] ==> May(s, acts[0]) && Runs(Do(s, acts[0]), acts[1..])
  }

  function After(s: Shared, acts: seq<Act>): (s': Shared)
    requires Runs(s, acts)
    ensures |s'.enqs| == |s.enqs|
    decreases |acts|
  {
    if acts == [] then s else After(Do(s, acts[0]), acts[1..])
  }

  // ---------------------------------------------------------------------------------------
  // What is wanted, and the exact condition
  // ---------------------------------------------------------------------------------------

  /** What was taken and what the memory holds are together what enqueuers said they put. */
  predicate Fifo(r: Ring) {
    r.head < |r.buf| && r.tail < |r.buf| && r.got + Stored(r.buf, r.head, r.tail) == r.put
  }

  /** At every moment of a run. */
  ghost predicate FifoThroughout(s: Shared, acts: seq<Act>)
    requires Runs(s, acts)
    decreases |acts|
  {
    Fifo(s.ring) && (acts != [] ==> FifoThroughout(Do(s, acts[0]), acts[1..]))
  }

  /** The slot is one the dequeuer has still to read. */
  predicate Unread(r: Ring, h: nat) {
    if r.tail <= r.head then r.tail <= h < r.head else r.tail <= h || h < r.head
  }

  /**
   The guard the code leaves out. A write must not hit an unread slot, unless it changes nothing. A
   publish must find the head where its enqueue loaded it, a slot free, and the slot as it wrote it.
   */
  predicate Guarded(r: Ring, pc: Pc) {
    match pc
    case At(EnqWrite(data, h)) => h < |r.buf| && (Unread(r, h) ==> r.buf[h] == data)
    case At(EnqPublish(data, h)) => h == r.head < |r.buf| && Succ(h, |r.buf|) != r.tail && r.buf[h] == data
    case _ => true
  }

  ghost predicate GuardedThroughout(s: Shared, acts: seq<Act>)
    requires Runs(s, acts)
    decreases |acts|
  {
    acts != [] ==>
      && (acts[0].EnqOn? ==> Guarded(s.ring, s.enqs[acts[0].i]))
      && GuardedThroughout(Do(s, acts[0]), acts[1..])
  }

  // ---------------------------------------------------------------------------------------
  // Single steps
  // ---------------------------------------------------------------------------------------

  /** The ring in order, as far as the dequeuer can tell; nothing is said of cachedTail or of who is enqueuing. */
  ghost predicate Healthy(r: Ring) {
    && Core(r.buf, r.head, r.tail, r.put, r.got)
    && r.cachedHead == r.seenPut % |r.buf| && |r.got| <= r.seenPut <= |r.put|
  }

  predicate InBounds(pc: Pc, cap: nat) {
    match pc
    case Loaded(_, h) => h < cap
    case Reloaded(_, h, _, _) => h < cap
    case Retest(_, h) => h < cap
    case At(EnqLoadTail(_, h)) => h < cap
    case At(EnqWrite(_, h)) => h < cap
    case At(EnqPublish(_, h)) => h < cap
    case _ => true
  }

  ghost predicate Fine(s: Shared) {
    && Healthy(s.ring) && DeqOk(s.ring, s.deq)
    && forall i :: 0 <= i < |s.enqs| ==> InBounds(s.enqs[i], |s.ring.buf|)
  }

  lemma {:induction false} HealthyIsFifo(r: Ring)
    requires Healthy(r)
    ensures Fifo(r)
  {
    StoredIsRest(r.buf, r.head, r.tail, r.put, r.got);
  }

  /** Which slot of the unread part a place in it is. */
  lemma {:induction false} UnreadSlot(r: Ring, k: nat)
    requires r.head < |r.buf| && r.tail < |r.buf| && k < |Stored(r.buf, r.head, r.tail)|
    ensures var h := if r.tail + k < |r.buf| then r.tail + k else r.tail + k - |r.buf|;
      h < |r.buf| && Unread(r, h) && Stored(r.buf, r.head, r.tail)[k] == r.buf[h]
  {
  }

  /** A write outside the unread part leaves it alone; inside, it changes what is stored. */
  lemma {:induction false} WriteShows(r: Ring, h: nat, data: Item)
    requires r.head < |r.buf| && r.tail < |r.buf| && h < |r.buf|
    ensures var st, st' := Stored(r.buf, r.head, r.tail), Stored(r.buf[h := data], r.head, r.tail);
      st == st' <==> (Unread(r, h) ==> r.buf[h] == data)
  {
    var st, st' := Stored(r.buf, r.head, r.tail), Stored(r.buf[h := data], r.head, r.tail);
    if Unread(r, h) {
      var k := if r.tail <= h then h - r.tail else |r.buf| - r.tail + h;
      assert st[k] == r.buf[h] && st'[k] == data;
      if r.buf[h] == data {
        assert r.buf[h := data] == r.buf;
      }
    }
  }

  lemma {:induction false} WriteKeeps(r: Ring, h: nat, data: Item)
    requires Healthy(r) && h < |r.buf| && (Unread(r, h) ==> r.buf[h] == data)
    ensures Healthy(r.(buf := r.buf[h := data]))
  {
    Meet(r.buf, r.head, r.tail, r.put, r.got);
    StoredIsRest(r.buf, r.head, r.tail, r.put, r.got);
    forall i | |r.got| <= i < |r.put|
      ensures r.buf[h := data][i % |r.buf|] == r.put[i]
    {
      ModOffset(|r.got|, i - |r.got|, |r.buf|);
      UnreadSlot(r, i - |r.got|);
    }
  }

  /** A write keeps the FIFO exactly when it is guarded. */
  lemma {:induction false} WriteExact(r: Ring, pc: EnqPc)
    requires Healthy(r) && pc.EnqWrite? && pc.head < |r.buf|
    ensures var r', g := EnqStep(r, pc).0, Guarded(r, At(pc)); (Fifo(r') <==> g) && (g ==> Healthy(r'))
  {
    HealthyIsFifo(r);
    WriteShows(r, pc.head, pc.data);
    if Guarded(r, At(pc)) {
      WriteKeeps(r, pc.head, pc.data);
    }
    var r' := EnqStep(r, pc).0;
    SameTail(r.got, Stored(r.buf, r.head, r.tail), Stored(r'.buf, r.head, r.tail));
  }

  lemma {:induction false} SameTail(a: seq<Item>, b: seq<Item>, c: seq<Item>)
    ensures a + b == a + c <==> b == c
  {
    assert (a + b)[|a|..] == b && (a + c)[|a|..] == c;
  }

  /** How many items the indices stand for. */
  lemma {:induction false} StoredLength(buf: seq<Item>, w: nat, r: nat)
    requires w < |buf| && r < |buf|
    ensures |Stored(buf, w, r)| == if r <= w then w - r else |buf| - r + w
  {
  }

  /** A publish keeps the FIFO exactly when it is guarded. */
  lemma {:induction false} PublishExact(r: Ring, pc: EnqPc)
    requires Healthy(r) && pc.EnqPublish? && pc.head < |r.buf|
    ensures var r', g := EnqStep(r, pc).0, Guarded(r, At(pc)); (Fifo(r') <==> g) && (g ==> Healthy(r'))
  {
    var r' := EnqStep(r, pc).0;
    Meet(r.buf, r.head, r.tail, r.put, r.got);
    if Guarded(r, At(pc)) {
      Publish(r.buf, r.head, r.tail, r.put, r.got);
      HealthyIsFifo(r');
    } else if Fifo(r') {
      PublishIsRight(r, pc);
      assert false;
    }
  }

  lemma {:induction false} PublishIsRight(r: Ring, pc: EnqPc)
    requires Healthy(r) && pc.EnqPublish? && pc.head < |r.buf| && Fifo(EnqStep(r, pc).0)
    ensures Guarded(r, At(pc))
  {
    var r' := EnqStep(r, pc).0;
    HealthyIsFifo(r);
    StoredLength(r.buf, r.head, r.tail);
    StoredLength(r.buf, r'.head, r.tail);
    var st, st' := Stored(r.buf, r.head, r.tail), Stored(r.buf, r'.head, r.tail);
    assert |r.got + st'| == |r.put| + 1 && |r.got + st| == |r.put|;
    assert pc.head == r.head;
    assert (r.got + st')[|r.put|] == pc.data;
    assert st'[|st|] == r.buf[r.head];
  }

  lemma {:induction false} DeqFine(s: Shared)
    requires Fine(s) && May(s, DeqOn)
    ensures Fine(Do(s, DeqOn))
  {
    var r := s.ring;
    Meet(r.buf, r.head, r.tail, r.put, r.got);
    if |r.got| < |r.put| {
      Take(r.buf, r.head, r.tail, r.put, r.got);
    }
  }

  /** Loads and stores of the cached tail do not touch what the ring holds. */
  lemma {:induction false} AskingKeeps(r: Ring, pc: Pc)
    requires Healthy(r) && !(pc.At? && (pc.pc.EnqWrite? || pc.pc.EnqPublish?))
    ensures var r' := SharedStep(r, pc).0; Healthy(r') && Fifo(r')
    ensures Guarded(r, pc)
  {
    HealthyIsFifo(SharedStep(r, pc).0);
  }

  lemma {:induction false} EnqFine(r: Ring, pc: Pc, deq: DeqPc)
    requires Healthy(r) && DeqOk(r, deq) && InBounds(pc, |r.buf|)
    ensures var (r', pc') := SharedStep(r, pc);
      && (Fifo(r') <==> Guarded(r, pc)) && (Guarded(r, pc) ==> Healthy(r'))
      && DeqOk(r', deq) && |r'.buf| == |r.buf| && InBounds(pc', |r.buf|)
  {
    if pc.At? && pc.pc.EnqWrite? {
      WriteExact(r, pc.pc);
    } else if pc.At? && pc.pc.EnqPublish? {
      PublishExact(r, pc.pc);
    } else {
      AskingKeeps(r, pc);
    }
    hide Healthy, Fifo, Guarded;
  }

  /** A guarded step, or one of no enqueuer's stores, keeps everything fine. */
  lemma {:induction false} StepFine(s: Shared, a: Act)
    requires Fine(s) && May(s, a)
    ensures var s' := Do(s, a); var guarded := a.EnqOn? ==> Guarded(s.ring, s.enqs[a.i]);
      (Fifo(s'.ring) <==> guarded) && (guarded ==> Fine(s'))
  {
    HealthyIsFifo(s.ring);
    match a
    case Enq(i, data) => Meet(s.ring.buf, s.ring.head, s.ring.tail, s.ring.put, s.ring.got);
    case EnqOn(i) => {
      EnqFine(s.ring, s.enqs[i], s.deq);
      hide Healthy, Fifo, Guarded, DeqOk, SharedStep, InBounds;
    }
    case Deq =>
    case DeqOn => {
      DeqFine(s);
      HealthyIsFifo(Do(s, a).ring);
    }
  }

  lemma {:induction false} ExactlyFrom(s: Shared, acts: seq<Act>)
    requires Fine(s) && Runs(s, acts)
    ensures FifoThroughout(s, acts) <==> GuardedThroughout(s, acts)
    decreases |acts|
  {
    HealthyIsFifo(s.ring);
    if acts != [] {
      StepFine(s, acts[0]);
      var s' := Do(s, acts[0]);
      if acts[0].EnqOn? && !Guarded(s.ring, s.enqs[acts[0].i]) {
        assert !FifoThroughout(s', acts[1..]);
      } else {
        ExactlyFrom(s', acts[1..]);
      }
    }
  }

  /**
   For any number of enqueuers and every run: the ring holds what was put, at every moment, if and
   only if every write and every publish was guarded.
   */
  lemma {:induction false} SharedFifoExactly(buf: seq<Item>, n: nat, acts: seq<Act>)
    requires buf != [] && Runs(Begin(buf, n), acts)
    ensures FifoThroughout(Begin(buf, n), acts) <==> GuardedThroughout(Begin(buf, n), acts)
  {
    ModUnique(0, 0, 0, |buf|);
    ExactlyFrom(Begin(buf, n), acts);
  }

  // ---------------------------------------------------------------------------------------
  // Taking turns is enough
  // ---------------------------------------------------------------------------------------

  /** No enqueue begins while another is between its head load and its answer. */
  ghost predicate TakingTurns(s: Shared, acts: seq<Act>)
    requires Runs(s, acts)
    decreases |acts|
  {
    acts != [] ==>
      && (acts[0].Enq? ==> forall j :: 0 <= j < |s.enqs| ==> !Active(s.enqs[j]))
      && TakingTurns(Do(s, acts[0]), acts[1..])
  }

  /** An enqueuer that has the ring's enqueuing side to itself. */
  ghost predicate PcOk(r: Ring, pc: Pc) {
    match pc
    case Loaded(_, head) => head == r.head
    case Reloaded(_, head, tail, seen) => head == r.head && |r.buf| > 0 && tail == seen % |r.buf| &&
      r.seenGot <= seen <= |r.got|
    case Retest(_, head) => head == r.head
    case At(pc) => EnqOk(r, pc)
  }

  ghost predicate OneAtATime(s: Shared) {
    && RingOk(s.ring) && DeqOk(s.ring, s.deq)
    && (forall i :: 0 <= i < |s.enqs| ==> PcOk(s.ring, s.enqs[i]))
    && forall i, j :: 0 <= i < |s.enqs| && 0 <= j < |s.enqs| && Active(s.enqs[i]) && Active(s.enqs[j]) ==> i == j
  }

  lemma {:induction false} TurnStep(s: Shared, a: Act)
    requires OneAtATime(s) && May(s, a) && (a.Enq? ==> forall j :: 0 <= j < |s.enqs| ==> !Active(s.enqs[j]))
    ensures OneAtATime(Do(s, a))
  {
    match a
    case Enq(i, data) =>
    case EnqOn(i) => TurnEnq(s, i);
    case Deq => StartDeqOk(s.ring);
    case DeqOn => TurnDeq(s);
  }

  /** Its own step keeps an enqueuer in order, and the dequeuer. */
  lemma {:induction false} OwnStep(r: Ring, pc: Pc, deq: DeqPc)
    requires RingOk(r) && PcOk(r, pc) && DeqOk(r, deq)
    ensures var (r', pc') := SharedStep(r, pc); RingOk(r') && PcOk(r', pc') && DeqOk(r', deq)
  {
    match pc
    case Loaded(data, head) => {
      StartEnqOk(r, data);
      hide RingOk, EnqOk, DeqOk;
    }
    case Reloaded(data, head, tail, seen) => hide Core;
    case Retest(data, head) => {
      StartEnqOk(r, data);
      hide RingOk, EnqOk, DeqOk;
      IdleOk(r, At(EnqDone(false)));
    }
    case At(pc) => {
      if pc.EnqLoadTail? {
        LoadsTail(r);
        hide RingOk, DeqOk;
      } else {
        EnqStepOk(r, pc, deq);
        hide RingOk, EnqOk, DeqOk, EnqStep;
      }
    }
  }

  lemma {:induction false} LoadsTail(r: Ring)
    requires RingOk(r)
    ensures |r.buf| > 0 && r.tail == |r.got| % |r.buf| && r.seenGot <= |r.got|
  {
  }

  lemma {:induction false} TurnEnq(s: Shared, i: nat)
    requires OneAtATime(s) && May(s, EnqOn(i))
    ensures OneAtATime(Do(s, EnqOn(i)))
  {
    OwnStep(s.ring, s.enqs[i], s.deq);
    hide RingOk, DeqOk, SharedStep, EnqOk;
    var s' := Do(s, EnqOn(i));
    forall j | 0 <= j < |s.enqs| && j != i
      ensures PcOk(s'.ring, s'.enqs[j]) && !Active(s'.enqs[j])
    {
      IdleOk(s'.ring, s.enqs[j]);
    }
  }

  lemma {:induction false} IdleOk(r: Ring, pc: Pc)
    requires !Active(pc)
    ensures PcOk(r, pc)
  {
  }

  lemma {:induction false} TurnDeq(s: Shared)
    requires OneAtATime(s) && May(s, DeqOn)
    ensures OneAtATime(Do(s, DeqOn))
  {
    DeqStepOk(s.ring, s.deq, EnqIdle);
    var s' := Do(s, DeqOn);
    forall i | 0 <= i < |s.enqs| ensures PcOk(s'.ring, s.enqs[i]) {
      if s.enqs[i].At? {
        DeqStepOk(s.ring, s.deq, s.enqs[i].pc);
      }
    }
  }

  lemma {:induction false} TurnsFrom(s: Shared, acts: seq<Act>)
    requires OneAtATime(s) && Runs(s, acts) && TakingTurns(s, acts)
    ensures FifoThroughout(s, acts)
    decreases |acts|
  {
    HealthyIsFifo(s.ring);
    if acts != [] {
      TurnStep(s, acts[0]);
      TurnsFrom(Do(s, acts[0]), acts[1..]);
    }
  }

  /** Enqueuers that take turns, however many there are, are as good as one. */
  lemma {:induction false} TakingTurnsIsSafe(buf: seq<Item>, n: nat, acts: seq<Act>)
    requires buf != [] && Runs(Begin(buf, n), acts) && TakingTurns(Begin(buf, n), acts)
    ensures FifoThroughout(Begin(buf, n), acts)
  {
    ModUnique(0, 0, 0, |buf|);
    TurnsFrom(Begin(buf, n), acts);
  }

  // ---------------------------------------------------------------------------------------
  // Two at once lose an item
  // ---------------------------------------------------------------------------------------

  /** Past its check, with this head loaded. */
  predicate Past(pc: Pc, h: nat) {
    pc.At? && (pc.pc.EnqWrite? || pc.pc.EnqPublish?) && pc.pc.head == h
  }

  predicate PastOrDone(pc: Pc, h: nat) {
    Past(pc, h) || pc == At(EnqDone(true))
  }

  function Count(pc: Pc): nat {
    if pc == At(EnqDone(true)) then 1 else 0
  }

  /** Where two such enqueuers have got to, between them, since the ring was r. */
  ghost predicate Between(r: Ring, s: Shared, i: nat, j: nat) {
    && i < |s.enqs| && j < |s.enqs| && i != j
    && PastOrDone(s.enqs[i], r.head) && PastOrDone(s.enqs[j], r.head)
    && s.ring.tail == r.tail && s.ring.got == r.got && |s.ring.buf| == |r.buf|
    && |s.ring.put| == |r.put| + Count(s.enqs[i]) + Count(s.enqs[j])
    && s.ring.head == if Count(s.enqs[i]) + Count(s.enqs[j]) == 0 then r.head else Succ(r.head, |r.buf|)
  }

  lemma {:induction false} BetweenRuns(r: Ring, s: Shared, i: nat, j: nat, acts: seq<Act>)
    requires Between(r, s, i, j) && Runs(s, acts) && forall k :: 0 <= k < |acts| ==>
      acts[k] == EnqOn(i) || acts[k] == EnqOn(j)
    ensures Between(r, After(s, acts), i, j)
    decreases |acts|
  {
    if acts != [] {
      BetweenRuns(r, Do(s, acts[0]), i, j, acts[1..]);
    }
  }

  /**
   Wherever the ring is in order and not full, let two enqueuers be past their checks with the head
   still where both loaded it. In whatever order their stores fall, both report success, and the
   ring is one item longer: one of the two is lost.
   */
  lemma {:induction false} TwoAtOnceLoseOne(s: Shared, i: nat, j: nat, acts: seq<Act>)
    requires Healthy(s.ring) && Succ(s.ring.head, |s.ring.buf|) != s.ring.tail
    requires i < |s.enqs| && j < |s.enqs| && i != j && Past(s.enqs[i], s.ring.head) && Past(s.enqs[j], s.ring.head)
    requires Runs(s, acts) && (forall k :: 0 <= k < |acts| ==> acts[k] == EnqOn(i) || acts[k] == EnqOn(j))
    requires !Active(After(s, acts).enqs[i]) && !Active(After(s, acts).enqs[j])
    ensures var s' := After(s, acts); var r, r' := s.ring, s'.ring;
      && s'.enqs[i] == At(EnqDone(true)) && s'.enqs[j] == At(EnqDone(true))
      && |r'.put| == |r.put| + 2 && r'.head < |r'.buf| && r'.tail < |r'.buf|
      && |Stored(r'.buf, r'.head, r'.tail)| == |Stored(r.buf, r.head, r.tail)| + 1
      && !Fifo(r')
  {
    var r := s.ring;
    Meet(r.buf, r.head, r.tail, r.put, r.got);
    HealthyIsFifo(r);
    BetweenRuns(r, s, i, j, acts);
    var r' := After(s, acts).ring;
    StoredLength(r.buf, r.head, r.tail);
    StoredLength(r'.buf, r'.head, r'.tail);
    assert |r.got + Stored(r.buf, r.head, r.tail)| == |r.put|;
  }

  /** Still asking whether there is room, at a full ring. */
  predicate Asking(r: Ring, pc: Pc) {
    match pc
    case Loaded(_, h) => h == r.head
    case Reloaded(_, h, tail, _) => h == r.head && tail == r.tail
    case Retest(_, h) => h == r.head
    case At(EnqLoadTail(_, h)) => h == r.head
    case _ => false
  }

  ghost predicate Refusing(r: Ring, s: Shared, i: nat, j: nat) {
    && i < |s.enqs| && j < |s.enqs| && i != j
    && s.ring == r.(seenGot := s.ring.seenGot)
    && (Asking(r, s.enqs[i]) || s.enqs[i] == At(EnqDone(false)))
    && (Asking(r, s.enqs[j]) || s.enqs[j] == At(EnqDone(false)))
  }

  lemma {:induction false} RefusingRuns(r: Ring, s: Shared, i: nat, j: nat, acts: seq<Act>)
    requires Succ(r.head, |r.buf|) == r.tail == r.cachedTail && Refusing(r, s, i, j)
    requires Runs(s, acts) && forall k :: 0 <= k < |acts| ==> acts[k] == EnqOn(i) || acts[k] == EnqOn(j)
    ensures Refusing(r, After(s, acts), i, j)
    decreases |acts|
  {
    if acts != [] {
      RefusingRuns(r, Do(s, acts[0]), i, j, acts[1..]);
    }
  }

  /** Being at it together is not what loses: two enqueuers at a full ring are refused, and it is as it was. */
  lemma {:induction false} TwoRefusedLoseNothing(s: Shared, i: nat, j: nat, acts: seq<Act>)
    requires Healthy(s.ring) && Succ(s.ring.head, |s.ring.buf|) == s.ring.tail == s.ring.cachedTail
    requires i < |s.enqs| && j < |s.enqs| && i != j && Asking(s.ring, s.enqs[i]) && Asking(s.ring, s.enqs[j])
    requires Runs(s, acts) && (forall k :: 0 <= k < |acts| ==> acts[k] == EnqOn(i) || acts[k] == EnqOn(j))
    requires !Active(After(s, acts).enqs[i]) && !Active(After(s, acts).enqs[j])
    ensures var s' := After(s, acts);
      && s'.enqs[i] == At(EnqDone(false)) && s'.enqs[j] == At(EnqDone(false))
      && s'.ring == s.ring.(seenGot := s'.ring.seenGot) && Fifo(s'.ring)
  {
    RefusingRuns(s.ring, s, i, j, acts);
    HealthyIsFifo(s.ring);
  }
}
