/**
 What the two single-producer, single-consumer rings share: a buffer with a write index and a
 read index, and the bounded FIFO of one item less than the buffer that it stands for.
 */
module RingBuffer {

  type Item = nat

  /** The next index, wrapping at the end of the buffer. */
  function Succ(i: nat, cap: nat): nat {
    if i + 1 == cap then 0 else i + 1
  }

  /** What the memory between the read and the write index holds, oldest first. */
  function Stored(buf: seq<Item>, w: nat, r: nat): seq<Item>
    requires w < |buf| && r < |buf|
  {
    if r <= w then buf[r..w] else buf[r..] + buf[..w]
  }

  /**
   The ring holds a bounded FIFO: `put` is everything ever published, `got` everything ever
   taken, and the slots between the two indices are the rest, never the whole buffer.
   */
  ghost predicate Core(buf: seq<Item>, w: nat, r: nat, put: seq<Item>, got: seq<Item>) {
    && |buf| > 0
    && got <= put
    && |put| < |got| + |buf|
    && w == |put| % |buf|
    && r == |got| % |buf|
    && forall i :: |got| <= i < |put| ==> buf[i % |buf|] == put[i]
  }

  lemma {:induction false} ModSucc(n: nat, cap: nat)
    requires cap > 0
    ensures n % cap < cap && (n + 1) % cap == Succ(n % cap, cap)
  {
    var q, m := n / cap, n % cap;
    assert n == q * cap + m;
    if m + 1 == cap {
      assert n + 1 == (q + 1) * cap;
      ModUnique(n + 1, q + 1, 0, cap);
    } else {
      ModUnique(n + 1, q, m + 1, cap);
    }
  }

  /** Different multiples of cap are at least cap apart. */
  lemma {:induction false} Multiples(a: int, b: int, cap: nat)
    requires a < b
    ensures a * cap + cap <= b * cap
    decreases b - a
  {
    assert b * cap == (b - 1) * cap + cap;
    if a < b - 1 {
      Multiples(a, b - 1, cap);
    }
  }

  lemma {:induction false} ModUnique(n: nat, q: nat, m: nat, cap: nat)
    requires m < cap && n == q * cap + m
    ensures n % cap == m && n / cap == q
  {
    var q' := n / cap;
    assert q' * cap <= n < q' * cap + cap by {
      assert n == cap * q' + n % cap;
    }
    if q < q' {
      Multiples(q, q', cap);
    } else if q' < q {
      Multiples(q', q, cap);
    }
  }

  /** Two counters less than a buffer apart meet modulo its size only when equal. */
  lemma {:induction false} ModApart(a: nat, b: nat, cap: nat)
    requires cap > 0 && a <= b < a + cap && a % cap == b % cap
    ensures a == b
  {
    var qa, qb := a / cap, b / cap;
    assert a == qa * cap + a % cap && b == qb * cap + b % cap;
    if qa < qb {
      Multiples(qa, qb, cap);
    } else if qb < qa {
      Multiples(qb, qa, cap);
    }
  }

  lemma {:induction false} ModShift(a: nat, cap: nat)
    requires cap > 0
    ensures (a + cap) % cap == a % cap
  {
    assert a + cap == (a / cap + 1) * cap + a % cap;
    ModUnique(a + cap, a / cap + 1, a % cap, cap);
  }

  /** Writing at the write index while there is room overwrites no unread slot. */
  lemma {:induction false} WriteSlot(buf: seq<Item>, w: nat, r: nat, put: seq<Item>, got: seq<Item>, d: Item)
    requires Core(buf, w, r, put, got)
    ensures w < |buf| && Core(buf[w := d], w, r, put, got)
  {
    ModSucc(|put|, |buf|);
    forall i | |got| <= i < |put|
      ensures buf[w := d][i % |buf|] == put[i]
    {
      if i % |buf| == w {
        ModApart(i, |put|, |buf|);
        assert false;
      }
    }
  }

  /** Moving the write index over a written slot adds its item at the back. */
  lemma {:induction false} Publish(buf: seq<Item>, w: nat, r: nat, put: seq<Item>, got: seq<Item>)
    requires Core(buf, w, r, put, got) && |put| + 1 < |got| + |buf|
    ensures w < |buf| && Core(buf, Succ(w, |buf|), r, put + [buf[w]], got)
  {
    ModSucc(|put|, |buf|);
    var put' := put + [buf[w]];
    forall i | |got| <= i < |put'|
      ensures buf[i % |buf|] == put'[i]
    {
      if i < |put| {
        assert put'[i] == put[i];
      }
    }
  }

  /** Moving the read index takes the oldest item. */
  lemma {:induction false} Take(buf: seq<Item>, w: nat, r: nat, put: seq<Item>, got: seq<Item>)
    requires Core(buf, w, r, put, got) && |got| < |put|
    ensures r < |buf| && buf[r] == put[|got|]
    ensures Core(buf, w, Succ(r, |buf|), put, got + [buf[r]])
  {
    ModSucc(|got|, |buf|);
    assert buf[|got| % |buf|] == put[|got|];
    assert got + [buf[r]] == put[..|got| + 1];
  }

  /** The ring is empty exactly when the indices meet, full when the writer is one behind the reader. */
  lemma {:induction false} Meet(buf: seq<Item>, w: nat, r: nat, put: seq<Item>, got: seq<Item>)
    requires Core(buf, w, r, put, got)
    ensures w < |buf| && r < |buf|
    ensures w == r <==> |got| == |put|
    ensures Succ(w, |buf|) == r <==> |put| + 1 == |got| + |buf|
  {
    ModSucc(|put|, |buf|);
    ModSucc(|got|, |buf|);
    if w == r {
      ModApart(|got|, |put|, |buf|);
    }
    if Succ(w, |buf|) == r && |put| + 1 < |got| + |buf| {
      ModApart(|got|, |put| + 1, |buf|);
      assert false;
    }
    if |put| + 1 == |got| + |buf| {
      ModShift(|got|, |buf|);
    }
  }

  lemma {:induction false} ModOffset(a: nat, i: nat, cap: nat)
    requires cap > 0 && i < cap
    ensures a % cap < cap
    ensures (a + i) % cap == if a % cap + i < cap then a % cap + i else a % cap + i - cap
  {
    var q, m := a / cap, a % cap;
    if m + i < cap {
      ModUnique(a + i, q, m + i, cap);
    } else {
      assert a + i == (q + 1) * cap + (m + i - cap);
      ModUnique(a + i, q + 1, m + i - cap, cap);
    }
  }

  lemma {:induction false} CoreBounds(buf: seq<Item>, w: nat, r: nat, put: seq<Item>, got: seq<Item>)
    requires Core(buf, w, r, put, got)
    ensures |got| <= |put| < |got| + |buf|
  {
  }

  /** The memory between the indices is what was published and not yet taken, in order. */
  lemma {:induction false} StoredIsRest(buf: seq<Item>, w: nat, r: nat, put: seq<Item>, got: seq<Item>)
    requires Core(buf, w, r, put, got)
    ensures w < |buf| && r < |buf| && got + Stored(buf, w, r) == put && |Stored(buf, w, r)| < |buf|
  {
    Meet(buf, w, r, put, got);
    var n := |put| - |got|;
    ModOffset(|got|, n, |buf|);
    var st := Stored(buf, w, r);
    assert |st| == n;
    forall i | 0 <= i < n
      ensures st[i] == put[|got| + i]
    {
      ModOffset(|got|, i, |buf|);
      assert buf[(|got| + i) % |buf|] == put[|got| + i];
    }
    assert st == put[|got|..];
  }
}

/**
 include/evhtp/spsc_queue.h: each side keeps a cached copy of the other side's index and loads
 the real one only when the cached one says full (or empty). One atomic or slot access per step.

 History: `put` and `got` as in RingBuffer; `seenGot` and `seenPut` are how many items had been
 taken, or published, when the cached index was last loaded.
 */
module SpscQueue {
  import opened RingBuffer

  datatype Ring = Ring(
    buf: seq<Item>,
    head: nat,
    tail: nat,
    cachedTail: nat,
    cachedHead: nat,
    put: seq<Item>,
    got: seq<Item>,
    seenGot: nat,
    seenPut: nat)

  /** Where the enqueuer is; `head` is its local copy. */
  datatype EnqPc =
    | EnqIdle
    | EnqLoadTail(data: Item, head: nat)
    | EnqWrite(data: Item, head: nat)
    | EnqPublish(data: Item, head: nat)
    | EnqDone(ok: bool)

  datatype DeqPc =
    | DeqIdle
    | DeqLoadHead(tail: nat)
    | DeqRead(tail: nat)
    | DeqPublish(tail: nat, data: Item)
    | DeqDone(ok: bool, data: Item)

  datatype State = State(ring: Ring, enq: EnqPc, deq: DeqPc)

  function InitRing(buf: seq<Item>): Ring {
    Ring(buf, 0, 0, 0, 0, [], [], 0, 0)
  }

  function Init(buf: seq<Item>): State {
    State(InitRing(buf), EnqIdle, DeqIdle)
  }

  // ---------------------------------------------------------------------------------------
  // The steps
  // ---------------------------------------------------------------------------------------

  function StartEnq(r: Ring, data: Item): EnqPc {
    if Succ(r.head, |r.buf|) == r.cachedTail then EnqLoadTail(data, r.head) else EnqWrite(data, r.head)
  }

  function EnqStep(r: Ring, pc: EnqPc): (Ring, EnqPc) {
    match pc
    case EnqLoadTail(data, head) =>
      (r.(cachedTail := r.tail, seenGot := |r.got|),
       if Succ(head, |r.buf|) == r.tail then EnqDone(false) else EnqWrite(data, head))
    case EnqWrite(data, head) =>
      (if head < |r.buf| then r.(buf := r.buf[head := data]) else r, EnqPublish(data, head))
    case EnqPublish(data, head) => (r.(head := Succ(head, |r.buf|), put := r.put + [data]), EnqDone(true))
    case _ => (r, pc)
  }

  function StartDeq(r: Ring): DeqPc {
    if r.tail == r.cachedHead then DeqLoadHead(r.tail) else DeqRead(r.tail)
  }

  function DeqStep(r: Ring, pc: DeqPc): (Ring, DeqPc) {
    match pc
    case DeqLoadHead(tail) =>
      (r.(cachedHead := r.head, seenPut := |r.put|),
       if tail == r.head then DeqDone(false, 0) else DeqRead(tail))
    case DeqRead(tail) => (r, DeqPublish(tail, if tail < |r.buf| then r.buf[tail] else 0))
    case DeqPublish(tail, data) => (r.(tail := Succ(tail, |r.buf|), got := r.got + [data]), DeqDone(true, data))
    case _ => (r, pc)
  }

  datatype Action = Enqueue(data: Item) | EnqueuerStep | Dequeue | DequeuerStep

  predicate Enabled(s: State, a: Action) {
    match a
    case Enqueue(_) => s.enq.EnqIdle? || s.enq.EnqDone?
    case EnqueuerStep => !(s.enq.EnqIdle? || s.enq.EnqDone?)
    case Dequeue => s.deq.DeqIdle? || s.deq.DeqDone?
    case DequeuerStep => !(s.deq.DeqIdle? || s.deq.DeqDone?)
  }

  function Next(s: State, a: Action): State {
    match a
    case Enqueue(data) => s.(enq := StartEnq(s.ring, data))
    case EnqueuerStep => var (r, pc) := EnqStep(s.ring, s.enq); s.(ring := r, enq := pc)
    case Dequeue => s.(deq := StartDeq(s.ring))
    case DequeuerStep => var (r, pc) := DeqStep(s.ring, s.deq); s.(ring := r, deq := pc)
  }

  // ---------------------------------------------------------------------------------------
  // The invariant
  // ---------------------------------------------------------------------------------------

  /** Cached indices are old but conservative: they never promise room or items that are not there. */
  ghost predicate RingOk(r: Ring) {
    && Core(r.buf, r.head, r.tail, r.put, r.got)
    && r.cachedTail == r.seenGot % |r.buf| && r.seenGot <= |r.got| && |r.put| < r.seenGot + |r.buf|
    && r.cachedHead == r.seenPut % |r.buf| && |r.got| <= r.seenPut <= |r.put|
  }

  ghost predicate Room(r: Ring) {
    |r.put| + 1 < r.seenGot + |r.buf|
  }

  ghost predicate EnqOk(r: Ring, pc: EnqPc) {
    match pc
    case EnqLoadTail(_, head) => head == r.head
    case EnqWrite(_, head) => head == r.head && Room(r)
    case EnqPublish(data, head) => head == r.head && Room(r) && head < |r.buf| && r.buf[head] == data
    case _ => true
  }

  ghost predicate DeqOk(r: Ring, pc: DeqPc) {
    match pc
    case DeqLoadHead(tail) => tail == r.tail
    case DeqRead(tail) => tail == r.tail && |r.got| < r.seenPut
    case DeqPublish(tail, data) => tail == r.tail && |r.got| < r.seenPut <= |r.put| && data == r.put[|r.got|]
    case _ => true
  }

  ghost predicate Inv(s: State) {
    RingOk(s.ring) && EnqOk(s.ring, s.enq) && DeqOk(s.ring, s.deq)
  }

  /** Published and not yet taken. */
  function Items(r: Ring): seq<Item> {
    if |r.got| <= |r.put| then r.put[|r.got|..] else []
  }

  lemma {:induction false} InitInv(buf: seq<Item>)
    requires buf != []
    ensures Inv(Init(buf))
  {
    ModUnique(0, 0, 0, |buf|);
  }

  /** An index that differs from the cached one leaves room; the cached one may lag, never lead. */
  lemma {:induction false} StartEnqOk(r: Ring, data: Item)
    requires RingOk(r)
    ensures EnqOk(r, StartEnq(r, data))
  {
    var cap := |r.buf|;
    ModSucc(|r.put|, cap);
    if |r.put| + 1 == r.seenGot + cap {
      ModShift(r.seenGot, cap);
    }
  }

  lemma {:induction false} StartDeqOk(r: Ring)
    requires RingOk(r)
    ensures DeqOk(r, StartDeq(r))
  {
  }

  /** The enqueuer's steps, whatever the dequeuer is doing; a refusal is true when it is given. */
  lemma {:induction false} EnqStepOk(r: Ring, pc: EnqPc, deq: DeqPc)
    requires RingOk(r) && EnqOk(r, pc) && DeqOk(r, deq)
    ensures var (r', pc') := EnqStep(r, pc);
      && RingOk(r') && EnqOk(r', pc') && DeqOk(r', deq)
      && r'.got == r.got && |r'.buf| == |r.buf|
      && Items(r') == Items(r) + (if pc.EnqPublish? then [pc.data] else [])
      && (pc.EnqLoadTail? && pc'.EnqDone? ==> !pc'.ok && |Items(r)| == |r.buf| - 1)
  {
    CoreBounds(r.buf, r.head, r.tail, r.put, r.got);
    Meet(r.buf, r.head, r.tail, r.put, r.got);
    hide Core;
    match pc
    case EnqWrite(data, head) => WriteSlot(r.buf, r.head, r.tail, r.put, r.got, data);
    case EnqPublish(data, head) => Publish(r.buf, r.head, r.tail, r.put, r.got);
    case _ =>
  }

  /** The dequeuer's steps; it takes the oldest item, and EMPTY is true when it is given. */
  lemma {:induction false} DeqStepOk(r: Ring, pc: DeqPc, enq: EnqPc)
    requires RingOk(r) && DeqOk(r, pc) && EnqOk(r, enq)
    ensures var (r', pc') := DeqStep(r, pc);
      && RingOk(r') && DeqOk(r', pc') && EnqOk(r', enq)
      && r'.put == r.put && |r'.buf| == |r.buf|
      && (if pc.DeqPublish? then Items(r) == [pc.data] + Items(r') else Items(r') == Items(r))
      && (pc.DeqLoadHead? && pc'.DeqDone? ==> !pc'.ok && Items(r) == [])
  {
    Meet(r.buf, r.head, r.tail, r.put, r.got);
    if |r.got| < |r.put| {
      Take(r.buf, r.head, r.tail, r.put, r.got);
    }
  }

  lemma {:induction false} NextInv(s: State, a: Action)
    requires Inv(s) && Enabled(s, a)
    ensures Inv(Next(s, a))
  {
    match a
    case Enqueue(data) => StartEnqOk(s.ring, data);
    case EnqueuerStep => EnqStepOk(s.ring, s.enq, s.deq);
    case Dequeue => StartDeqOk(s.ring);
    case DequeuerStep => DeqStepOk(s.ring, s.deq, s.enq);
  }

  ghost predicate ValidRun(s: State, actions: seq<Action>)
    decreases |actions|
  {
    actions != [] ==> Enabled(s, actions[0]) && ValidRun(Next(s, actions[0]), actions[1..])
  }

  function Final(s: State, actions: seq<Action>): State
    decreases |actions|
  {
    if actions == [] then s else Final(Next(s, actions[0]), actions[1..])
  }

  lemma {:induction false} RunInv(s: State, actions: seq<Action>)
    requires Inv(s) && ValidRun(s, actions)
    ensures Inv(Final(s, actions))
    decreases |actions|
  {
    if actions != [] {
      NextInv(s, actions[0]);
      RunInv(Next(s, actions[0]), actions[1..]);
    }
  }

  /**
   In every interleaving of one enqueuer with one dequeuer the memory between the indices is what
   was published and not yet taken, in order, and never more than one less than the buffer.
   */
  lemma {:induction false} BoundedFifo(buf: seq<Item>, actions: seq<Action>)
    requires buf != [] && ValidRun(Init(buf), actions)
    ensures var r := Final(Init(buf), actions).ring;
      && r.head < |r.buf| && r.tail < |r.buf|
      && r.got + Stored(r.buf, r.head, r.tail) == r.put
      && |Stored(r.buf, r.head, r.tail)| <= |r.buf| - 1
  {
    InitInv(buf);
    RunInv(Init(buf), actions);
    var r := Final(Init(buf), actions).ring;
    StoredIsRest(r.buf, r.head, r.tail, r.put, r.got);
  }
}

/** Bitwise AND on naturals, for the masked ring's indices. */
module Bits {
  import opened RingBuffer

  function And(a: nat, b: nat): nat {
    if a == 0 || b == 0 then 0 else (if a % 2 == 1 && b % 2 == 1 then 1 else 0) + 2 * And(a / 2, b / 2)
  }

  function Pow2(k: nat): nat {
    if k == 0 then 1 else 2 * Pow2(k - 1)
  }

  lemma {:induction false} Pow2Positive(k: nat)
    ensures Pow2(k) >= 1
  {
    if k > 0 {
      Pow2Positive(k - 1);
    }
  }

  lemma {:induction false} HalfMod(x: nat, p: nat)
    requires p >= 1
    ensures x % (2 * p) == 2 * ((x / 2) % p) + x % 2
  {
    var q, m := (x / 2) / p, (x / 2) % p;
    assert x / 2 == q * p + m;
    assert q * (2 * p) == 2 * (q * p);
    ModUnique(x, q, 2 * m + x % 2, 2 * p);
  }

  lemma {:induction false} AndOdd(x: nat, p: nat)
    requires p >= 1
    ensures And(x, 2 * p - 1) == x % 2 + 2 * And(x / 2, p - 1)
  {
    assert (2 * p - 1) % 2 == 1 && (2 * p - 1) / 2 == p - 1;
  }

  /** Masking with a power of two less one is the remainder. */
  lemma {:induction false} AndMask(x: nat, k: nat)
    ensures Pow2(k) >= 1 && And(x, Pow2(k) - 1) == x % Pow2(k)
  {
    hide And;
    Pow2Positive(k);
    if k == 0 {
      AndZero(x);
    } else {
      Pow2Positive(k - 1);
      AndMask(x / 2, k - 1);
      MaskDoubles(x, Pow2(k - 1));
    }
  }

  lemma {:induction false} AndZero(x: nat)
    ensures And(x, 0) == 0 && x % 1 == 0
  {
  }

  lemma {:induction false} MaskDoubles(x: nat, p: nat)
    requires p >= 1 && And(x / 2, p - 1) == (x / 2) % p
    ensures And(x, 2 * p - 1) == x % (2 * p)
  {
    hide And;
    HalfMod(x, p);
    AndOdd(x, p);
  }

  lemma {:induction false} AndSelf(d: nat)
    ensures And(d, d) == d
  {
    if d > 0 {
      AndSelf(d / 2);
    }
  }

  /** The usual test for a power of two is right. */
  lemma {:induction false} PowerOfTwoTest(c: nat)
    requires c >= 1
    ensures And(c, c - 1) == 0 <==> exists k :: Pow2(k) == c
  {
    if And(c, c - 1) == 0 {
      var k := Exponent(c);
    }
    forall k | Pow2(k) == c
      ensures And(c, c - 1) == 0
    {
      AndMask(c, k);
      ModUnique(c, 1, 0, c);
    }
  }

  lemma {:induction false} Exponent(c: nat) returns (k: nat)
    requires c >= 1 && And(c, c - 1) == 0
    ensures Pow2(k) == c
  {
    if c == 1 {
      k := 0;
    } else {
      var d := c / 2;
      if c % 2 == 0 {
        assert (c - 1) / 2 == d - 1;
        k := Exponent(d);
        k := k + 1;
      } else {
        assert (c - 1) / 2 == d;
        AndSelf(d);
        assert false;
      }
    }
  }
}

/**
 include/evhtp/vspsc_queue.h: the ring with power-of-two capacity and masked indices; `tail` is
 the write index and `head` the read index, and both are loaded afresh on every call.
 */
module MaskedQueue {
  import opened Bits
  import opened Prelude
  import opened RingBuffer

  datatype PushPc =
    | PushIdle
    | PushLoadHead(item: Item, tail: nat)
    | PushWrite(item: Item, tail: nat)
    | PushPublish(item: Item, tail: nat)
    | PushDone(ok: bool)

  datatype PopPc =
    | PopIdle
    | PopLoadTail(head: nat)
    | PopRead(head: nat)
    | PopPublish(head: nat, item: Item)
    | PopDone(ok: bool, item: Item)

  datatype State = State(
    buf: seq<Item>,
    head: nat,
    tail: nat,
    push: PushPc,
    pop: PopPc,
    put: seq<Item>,
    got: seq<Item>)

  /** spsc_init, given a buffer of `capacity` slots: refused unless that is a power of two, at least 2. */
  function Init(capacity: nat, buf: seq<Item>): Option<State>
    requires |buf| == capacity
  {
    if capacity < 2 || And(capacity, capacity - 1) != 0 then None
    else Some(State(buf, 0, 0, PushIdle, PopIdle, [], []))
  }

  /** `(i + 1) & (capacity - 1)`. */
  function MaskedSucc(i: nat, capacity: nat): nat {
    if capacity == 0 then 0 else And(i + 1, capacity - 1)
  }

  datatype Action = Push(item: Item) | PusherStep | Pop | PopperStep

  predicate Enabled(s: State, a: Action) {
    match a
    case Push(_) => s.push.PushIdle? || s.push.PushDone?
    case PusherStep => !(s.push.PushIdle? || s.push.PushDone?)
    case Pop => s.pop.PopIdle? || s.pop.PopDone?
    case PopperStep => !(s.pop.PopIdle? || s.pop.PopDone?)
  }

  function PushStep(s: State): State {
    match s.push
    case PushLoadHead(item, tail) =>
      s.(push := if MaskedSucc(tail, |s.buf|) == s.head then PushDone(false) else PushWrite(item, tail))
    case PushWrite(item, tail) =>
      s.(buf := if tail < |s.buf| then s.buf[tail := item] else s.buf, push := PushPublish(item, tail))
    case PushPublish(item, tail) =>
      s.(tail := MaskedSucc(tail, |s.buf|), put := s.put + [item], push := PushDone(true))
    case _ => s
  }

  function PopStep(s: State): State {
    match s.pop
    case PopLoadTail(head) => s.(pop := if head == s.tail then PopDone(false, 0) else PopRead(head))
    case PopRead(head) => s.(pop := PopPublish(head, if head < |s.buf| then s.buf[head] else 0))
    case PopPublish(head, item) =>
      s.(head := MaskedSucc(head, |s.buf|), got := s.got + [item], pop := PopDone(true, item))
    case _ => s
  }

  function Next(s: State, a: Action): State {
    match a
    case Push(item) => s.(push := PushLoadHead(item, s.tail))
    case PusherStep => PushStep(s)
    case Pop => s.(pop := PopLoadTail(s.head))
    case PopperStep => PopStep(s)
  }

  function Items(s: State): seq<Item> {
    if |s.got| <= |s.put| then s.put[|s.got|..] else []
  }

  ghost predicate PushOk(s: State) {
    match s.push
    case PushLoadHead(_, tail) => tail == s.tail
    case PushWrite(_, tail) => tail == s.tail && |s.put| + 1 < |s.got| + |s.buf|
    case PushPublish(item, tail) =>
      tail == s.tail && |s.put| + 1 < |s.got| + |s.buf| && tail < |s.buf| && s.buf[tail] == item
    case _ => true
  }

  ghost predicate PopOk(s: State) {
    match s.pop
    case PopLoadTail(head) => head == s.head
    case PopRead(head) => head == s.head && |s.got| < |s.put|
    case PopPublish(head, item) => head == s.head && |s.got| < |s.put| && item == s.put[|s.got|]
    case _ => true
  }

  ghost predicate Inv(s: State) {
    && |s.buf| >= 2 && (exists k :: Pow2(k) == |s.buf|)
    && Core(s.buf, s.tail, s.head, s.put, s.got)
    && PushOk(s) && PopOk(s)
  }

  /** On a power-of-two capacity the mask wraps exactly where the modulus does. */
  lemma {:induction false} MaskWraps(i: nat, capacity: nat)
    requires i < capacity && exists k :: Pow2(k) == capacity
    ensures MaskedSucc(i, capacity) == Succ(i, capacity)
  {
    var k :| Pow2(k) == capacity;
    AndMask(i + 1, k);
    if i + 1 == capacity {
      ModUnique(i + 1, 1, 0, capacity);
    } else {
      ModUnique(i + 1, 0, i + 1, capacity);
    }
  }

  /** spsc_init accepts exactly the powers of two from 2 on, and what it sets up is an empty ring. */
  lemma {:induction false} InitAccepts(capacity: nat, buf: seq<Item>)
    requires |buf| == capacity
    ensures Init(capacity, buf).Some? <==> capacity >= 2 && exists k :: Pow2(k) == capacity
    ensures Init(capacity, buf).Some? ==> Inv(Init(capacity, buf).value) && Items(Init(capacity, buf).value) == []
  {
    if capacity >= 2 {
      PowerOfTwoTest(capacity);
      ModUnique(0, 0, 0, capacity);
    }
  }

  /** The pusher's steps: a refusal means capacity - 1 items are in, a success adds one at the back. */
  lemma {:induction false} PushStepOk(s: State)
    requires Inv(s)
    ensures var s' := PushStep(s);
      && Inv(s')
      && Items(s') == Items(s) + (if s.push.PushPublish? then [s.push.item] else [])
      && (s.push.PushLoadHead? && s'.push.PushDone? ==> !s'.push.ok && |Items(s)| == |s.buf| - 1)
  {
    CoreBounds(s.buf, s.tail, s.head, s.put, s.got);
    Meet(s.buf, s.tail, s.head, s.put, s.got);
    MaskWraps(s.tail, |s.buf|);
    hide Core, Pow2, And, MaskedSucc;
    match s.push
    case PushWrite(item, tail) => WriteSlot(s.buf, s.tail, s.head, s.put, s.got, item);
    case PushPublish(item, tail) => Publish(s.buf, s.tail, s.head, s.put, s.got);
    case _ =>
  }

  /** The popper's steps: a refusal means no item is in, a success takes the oldest. */
  lemma {:induction false} PopStepOk(s: State)
    requires Inv(s)
    ensures var s' := PopStep(s);
      && Inv(s')
      && (if s.pop.PopPublish? then Items(s) == [s.pop.item] + Items(s') else Items(s') == Items(s))
      && (s.pop.PopLoadTail? && s'.pop.PopDone? ==> !s'.pop.ok && Items(s) == [])
  {
    CoreBounds(s.buf, s.tail, s.head, s.put, s.got);
    Meet(s.buf, s.tail, s.head, s.put, s.got);
    MaskWraps(s.head, |s.buf|);
    hide Core, Pow2, And, MaskedSucc;
    match s.pop
    case PopRead(head) => Take(s.buf, s.tail, s.head, s.put, s.got);
    case PopPublish(head, item) => {
      Take(s.buf, s.tail, s.head, s.put, s.got);
      assert Items(s) == [item] + Items(PopStep(s));
    }
    case _ =>
  }

  lemma {:induction false} NextInv(s: State, a: Action)
    requires Inv(s) && Enabled(s, a)
    ensures Inv(Next(s, a))
  {
    match a
    case PusherStep => PushStepOk(s);
    case PopperStep => PopStepOk(s);
    case _ =>
  }

  ghost predicate ValidRun(s: State, actions: seq<Action>)
    decreases |actions|
  {
    actions != [] ==> Enabled(s, actions[0]) && ValidRun(Next(s, actions[0]), actions[1..])
  }

  function Final(s: State, actions: seq<Action>): State
    decreases |actions|
  {
    if actions == [] then s else Final(Next(s, actions[0]), actions[1..])
  }

  lemma {:induction false} RunInv(s: State, actions: seq<Action>)
    requires Inv(s) && ValidRun(s, actions)
    ensures Inv(Final(s, actions))
    decreases |actions|
  {
    if actions != [] {
      NextInv(s, actions[0]);
      RunInv(Next(s, actions[0]), actions[1..]);
    }
  }

  /** Every interleaving of one pusher with one popper, from any capacity spsc_init accepts. */
  lemma {:induction false} BoundedFifo(capacity: nat, buf: seq<Item>, actions: seq<Action>)
    requires |buf| == capacity && Init(capacity, buf).Some? && ValidRun(Init(capacity, buf).value, actions)
    ensures var s := Final(Init(capacity, buf).value, actions);
      && s.head < |s.buf| && s.tail < |s.buf|
      && s.got + Stored(s.buf, s.tail, s.head) == s.put
      && |Stored(s.buf, s.tail, s.head)| <= |s.buf| - 1
  {
    InitAccepts(capacity, buf);
    RunInv(Init(capacity, buf).value, actions);
    var s := Final(Init(capacity, buf).value, actions);
    StoredIsRest(s.buf, s.tail, s.head, s.put, s.got);
  }
}
