/**
 When evthr_free has drained a sender's ring and freed it, will the target still give a cell back to
 it? A cell goes home to the ring of the sender that filled it, so it depends on whether cells of that
 sender are still on their way.
 */
module Retirement {
  import opened Prelude
  import Q = MpscQueue
  import R = SpscQueue
  import opened CellFlow
  import opened Channel

  // ---------------------------------------------------------------------------------------
  // Homes
  // ---------------------------------------------------------------------------------------

  predicate OwnCmd(pc: SenderPc, j: nat) {
    match pc
    case SDequeue(cmd) => cmd.home.Some? ==> cmd.home.value == j
    case SAlloc(cmd) => cmd.home.Some? ==> cmd.home.value == j
    case SFill(cmd, _) => cmd.home.Some? ==> cmd.home.value == j
    case SInsert(cmd, _) => cmd.home.Some? ==> cmd.home.value == j
    case _ => true
  }

  /** A cell on its way home is on its way to the home written in it. */
  ghost predicate HomeKept(s: State) {
    match s.target
    case TRecycle(c, home) => c in s.payload && s.payload[c].home == home
    case TEnqueue(c, j) => c in s.payload && s.payload[c].home == Some(j)
    case _ => true
  }

  ghost predicate Homes(s: State) {
    HomeKept(s) && forall j :: 0 <= j < |s.senders| ==> OwnCmd(s.senders[j], j)
  }

  lemma {:induction false} InHandNotBusy(s: State, j: nat)
    requires Sized(s) && OnePlace(View(s)) && j < |s.senders| && s.senders[j].SFill? && View(s).busy.Holds?
    ensures s.senders[j].cell != View(s).busy.cell
  {
    assert View(s).hands[j] == Got(s.senders[j].cell);
  }

  lemma {:induction false} SendHomes(s: State, j: nat)
    requires Sized(s) && OnePlace(View(s)) && Homes(s) && Enabled(s, Send(j))
    ensures Homes(SendStep(s, j))
  {
    hide Q.ProduceStep, Q.StartInsert, R.DeqStep, OnePlace;
    if s.senders[j].SFill? && BusyOf(s.target).Holds? {
      InHandNotBusy(s, j);
    }
  }

  lemma {:induction false} TargetHomes(s: State)
    requires Sized(s) && TargetOk(s) && Homes(s)
    ensures Homes(TargetStep(s))
  {
    hide Q.ConsumeStep, Q.StartCall, R.EnqStep;
  }

  lemma {:induction false} NextHomes(s: State, a: Action)
    requires Inv(s) && Homes(s) && Enabled(s, a)
    ensures Homes(Next(s, a))
  {
    hide Q.Inv, Wake, Faithful, OnePlace, SendStep, TargetStep;
    match a
    case Send(j) => SendHomes(s, j);
    case Target => TargetHomes(s);
    case _ =>
  }

  /** The cell's command is to send it home to i. */
  ghost predicate HasHome(f: Flow, c: Cell, i: nat) {
    c in f.payload && f.payload[c].home == Some(i)
  }

  /** Some cell of sender i is queued, or held by the target. */
  ghost predicate Homed(f: Flow, i: nat) {
    (exists k :: 0 <= k < |f.queue| && HasHome(f, f.queue[k], i)) || (f.busy.Holds? && HasHome(f, f.busy.cell, i))
  }

  // ---------------------------------------------------------------------------------------
  // Moves of cells
  // ---------------------------------------------------------------------------------------

  /** Sender i is out of it: it fills no cell, and cells go home to their own ring only. */
  ghost predicate WithoutSender(f: Flow, m: Move, i: nat) {
    && (forall j :: 0 <= j < |f.hands| && f.hands[j].Filled? ==> f.hands[j].cmd.home != Some(i))
    && (m.Fill? ==> m.cmd.home != Some(i))
    && (m.Recycle? ==> f.busy.Holds? && HasHome(f, f.busy.cell, m.i))
  }

  lemma {:induction false} MoveStaysAway(f: Flow, m: Move, i: nat)
    requires Faithful(f) && Allowed(f, m) && WithoutSender(f, m, i) && i < |f.rings| && f.rings[i] == [] && !Homed(f, i)
    ensures var f' := Apply(f, m); |f'.rings| == |f.rings| && f'.rings[i] == [] && !Homed(f', i)
  {
    var f' := Apply(f, m);
    forall k | 0 <= k < |f'.queue|
      ensures !HasHome(f', f'.queue[k], i)
    {
      if m.Take? {
        assert f'.queue[k] == f.queue[k + 1];
      } else if k < |f.queue| {
        assert f'.queue[k] == f.queue[k];
      }
    }
  }

  lemma {:induction false} FillApart(f: Flow, m: Move)
    requires OnePlace(f) && Allowed(f, m) && m.Fill?
    ensures var c := f.hands[m.i].cell;
      (forall k :: 0 <= k < |f.queue| ==> f.queue[k] != c) && (f.busy.Holds? ==> f.busy.cell != c)
  {
    assert At(f, f.hands[m.i].cell, InHand(m.i));
  }

  /** A cell on its way stays on its way, gets home, or is dropped by the target. */
  lemma {:induction false} MoveStaysHomed(f: Flow, m: Move, i: nat)
    requires OnePlace(f) && Allowed(f, m) && WithoutSender(f, m, i) && i < |f.rings| && Homed(f, i)
    requires m.Drop? ==> !HasHome(f, f.busy.cell, i)
    ensures var f' := Apply(f, m); |f'.rings| == |f.rings| && (Homed(f', i) || f'.rings[i] != [])
  {
    var f' := Apply(f, m);
    if m.Fill? {
      FillApart(f, m);
    }
    hide OnePlace;
    if k :| 0 <= k < |f.queue| && HasHome(f, f.queue[k], i) {
      if m.Take? {
        if k > 0 {
          assert f'.queue[k - 1] == f.queue[k];
        }
      } else {
        assert f'.queue[k] == f.queue[k];
      }
    }
  }

  // ---------------------------------------------------------------------------------------
  // Steps of the channel
  // ---------------------------------------------------------------------------------------

  ghost predicate Gone(s: State, i: nat) {
    Sized(s) && Inv(s) && Homes(s) && i < |s.senders| && s.senders[i].SGone?
  }

  /** The sender is still gone, and its ring as large. */
  ghost predicate Same(s: State, s': State, i: nat) {
    && |s'.senders| == |s.senders| && i < |s.senders| && s'.senders[i] == s.senders[i]
    && |s'.rings| == |s.rings| && i < |s.rings| && |s'.rings[i].ring.buf| == |s.rings[i].ring.buf|
  }

  lemma {:induction false} SendSame(s: State, j: nat, i: nat)
    requires Sized(s) && i < |s.senders| && s.senders[i].SGone? && Enabled(s, Send(j))
    ensures Same(s, SendStep(s, j), i)
  {
    hide Q.ProduceStep, Q.StartInsert, R.DeqStep;
    assert i != j;
  }

  lemma {:induction false} TargetSame(s: State, i: nat)
    requires Sized(s) && i < |s.senders|
    ensures Same(s, TargetStep(s), i)
  {
    hide Q.ConsumeStep, Q.StartCall;
  }

  lemma {:induction false} GoneStays(s: State, a: Action, i: nat)
    requires Sized(s) && i < |s.senders| && s.senders[i].SGone? && Enabled(s, a)
    ensures Same(s, Next(s, a), i)
  {
    hide SendStep, TargetStep;
    match a
    case Send(j) => SendSame(s, j, i);
    case Target => TargetSame(s, i);
    case _ =>
  }

  lemma {:induction false} NextGone(s: State, a: Action, i: nat)
    requires Gone(s, i) && Enabled(s, a)
    ensures Gone(Next(s, a), i)
  {
    NextInv(s, a);
    NextHomes(s, a);
    GoneStays(s, a, i);
  }

  lemma {:induction false} MovesWithout(s: State, a: Action, i: nat)
    requires Gone(s, i) && Enabled(s, a)
    ensures WithoutSender(View(s), MoveOf(s, a), i)
  {
    hide Q.Inv, Wake, OnePlace, Faithful;
    var f := View(s);
    forall j | 0 <= j < |f.hands| && f.hands[j].Filled?
      ensures f.hands[j].cmd.home != Some(i)
    {
      assert OwnCmd(s.senders[j], j);
    }
  }

  lemma {:induction false} Refined(s: State, a: Action)
    requires Inv(s) && Enabled(s, a)
    ensures Sized(Next(s, a)) && Refines(s, Next(s, a), MoveOf(s, a))
  {
    NextRefines(s, a);
  }

  /** With nothing on its way to it, a retired ring stays empty. */
  lemma {:induction false} StaysAway(s: State, a: Action, i: nat)
    requires Gone(s, i) && Enabled(s, a) && R.Items(s.rings[i].ring) == [] && !Homed(View(s), i)
    ensures var s' := Next(s, a); Gone(s', i) && R.Items(s'.rings[i].ring) == [] && !Homed(View(s'), i)
  {
    NextGone(s, a, i);
    Refined(s, a);
    MovesWithout(s, a, i);
    hide Q.Inv, Wake, OnePlace, Homes, Homed, WithoutSender, Control, Next, MoveOf, Apply;
    MoveStaysAway(View(s), MoveOf(s, a), i);
    assert View(Next(s, a)).rings[i] == R.Items(Next(s, a).rings[i].ring);
  }

  /** The target does not drop a cell whose ring has room. */
  lemma {:induction false} NotDropped(s: State, a: Action, i: nat)
    requires Gone(s, i) && Enabled(s, a) && R.Items(s.rings[i].ring) == [] && |s.rings[i].ring.buf| >= 2
    requires MoveOf(s, a).Drop?
    ensures View(s).busy.Holds? && !HasHome(View(s), View(s).busy.cell, i)
  {
    hide Q.Inv, Wake, OnePlace, Faithful, Q.Contents, Next;
    DropIs(s, a);
    if s.target.TEnqueue? {
      RefusalIsFull(s, i);
    }
  }

  /** The target drops a cell that has no home, or that its ring has refused. */
  lemma {:induction false} DropIs(s: State, a: Action)
    requires Sized(s) && Enabled(s, a) && MoveOf(s, a).Drop?
    ensures a.Target? && (s.target.TRecycle? || s.target.TEnqueue?)
    ensures s.target.TRecycle? ==> s.target.home.None?
    ensures s.target.TEnqueue? ==>
      var j := s.target.ring;
      j < |s.rings| && !s.rings[j].enq.EnqPublish? && R.EnqStep(s.rings[j].ring, s.rings[j].enq).1.EnqDone?
  {
    hide R.EnqStep;
  }

  lemma {:induction false} RefusalIsFull(s: State, i: nat)
    requires Control(s) && s.target.TEnqueue? && i < |s.rings| && |s.rings[i].ring.buf| >= 2
    requires var j := s.target.ring;
      j < |s.rings| && !s.rings[j].enq.EnqPublish? && R.EnqStep(s.rings[j].ring, s.rings[j].enq).1.EnqDone?
    ensures s.target.ring == i ==> R.Items(s.rings[i].ring) != []
  {
    var j := s.target.ring;
    assert SenderOk(s, j);
    R.EnqStepOk(s.rings[j].ring, s.rings[j].enq, s.rings[j].deq);
  }

  /** A cell of a retired sender on its way, and a ring with room for one. */
  ghost predicate OnItsWay(s: State, i: nat) {
    Gone(s, i) && |s.rings[i].ring.buf| >= 2 && Homed(View(s), i)
  }

  lemma {:induction false} KeepsGoing(s: State, a: Action, i: nat)
    requires OnItsWay(s, i) && Enabled(s, a) && R.Items(s.rings[i].ring) == []
    ensures var s' := Next(s, a); Sized(s') && i < |s'.rings| && (OnItsWay(s', i) || R.Items(s'.rings[i].ring) != [])
  {
    NextGone(s, a, i);
    GoneStays(s, a, i);
    Refined(s, a);
    MovesWithout(s, a, i);
    if MoveOf(s, a).Drop? {
      NotDropped(s, a, i);
    }
    hide Q.Inv, Wake, OnePlace, Faithful, Homes, Homed, WithoutSender, Control, Next, MoveOf, Apply;
    MoveStaysHomed(View(s), MoveOf(s, a), i);
    assert View(Next(s, a)).rings[i] == R.Items(Next(s, a).rings[i].ring);
  }

  // ---------------------------------------------------------------------------------------
  // A cell on its way gets there
  // ---------------------------------------------------------------------------------------

  /** Some later run puts a cell into ring i. */
  ghost predicate Refills(s: State, i: nat) {
    exists actions :: ValidRun(s, actions) && i < |Final(s, actions).rings| &&
      R.Items(Final(s, actions).rings[i].ring) != []
  }

  lemma {:induction false} RefilledNow(s: State, i: nat)
    requires i < |s.rings| && R.Items(s.rings[i].ring) != []
    ensures Refills(s, i)
  {
    assert ValidRun(s, []) && Final(s, []) == s;
  }

  lemma {:induction false} RefillsAfter(s: State, a: Action, i: nat)
    requires Sized(s) && Enabled(s, a) && Refills(Next(s, a), i)
    ensures Refills(s, i)
  {
    var rest :| ValidRun(Next(s, a), rest) && i < |Final(Next(s, a), rest).rings| &&
      R.Items(Final(Next(s, a), rest).rings[i].ring) != [];
    var actions := [a] + rest;
    assert actions[1..] == rest;
    assert ValidRun(s, actions) && Final(s, actions) == Final(Next(s, a), rest);
  }

  /** One more step on the way: either a cell is home, or it is still on its way. */
  lemma {:induction false} OneMore(s: State, a: Action, i: nat) returns (s': State, home: bool)
    requires OnItsWay(s, i) && Enabled(s, a)
    ensures Sized(s) && s' == Next(s, a) && (Refills(s', i) ==> Refills(s, i))
    ensures if home then Refills(s, i) else OnItsWay(s', i)
  {
    hide Inv, Homes, Homed, Next, Refills;
    s' := Next(s, a);
    if R.Items(s.rings[i].ring) != [] {
      home := true;
      RefilledNow(s, i);
    } else {
      KeepsGoing(s, a, i);
      home := R.Items(s'.rings[i].ring) != [];
      if home {
        RefilledNow(s', i);
        RefillsAfter(s, a, i);
      }
    }
    if Refills(s', i) {
      RefillsAfter(s, a, i);
    }
  }

  lemma {:induction false} WaitingIsQueued(s: State, i: nat)
    requires Sized(s) && s.target.TWait? && Homed(View(s), i)
    ensures Q.Contents(s.q) != []
  {
  }

  /** A draining target that nobody disturbs brings it home. */
  lemma {:induction false} DrainRefills(s: State, i: nat)
    requires OnItsWay(s, i) && Quiet(s) && !s.target.TWait?
    ensures Refills(s, i)
    decreases |Q.Contents(s.q)|, Rank(s)
  {
    hide Inv, Homes, Homed, Refills, TargetStep, Rank, Q.Contents, Q.AnyLink;
    TargetProgress(s);
    var s1, home := OneMore(s, Target, i);
    if !home {
      if s1.target.TWait? {
        WaitingIsQueued(s1, i);
        assert false;
      } else {
        DrainRefills(s1, i);
      }
    }
  }

  lemma {:induction false} WokenRefills(s: State, i: nat)
    requires OnItsWay(s, i) && s.target.TWait? && s.eventfd > 0 && !Q.AnyLink(s.q)
    ensures Refills(s, i)
  {
    hide Inv, Homes, Homed, Refills, Q.AnyLink;
    var s1, home := OneMore(s, Target, i);
    if !home {
      DrainRefills(s1, i);
    }
  }

  // ---------------------------------------------------------------------------------------
  // Somebody wakes the target
  // ---------------------------------------------------------------------------------------

  predicate Live(pc: SenderPc) {
    !pc.SDrain? && !pc.SGone?
  }

  function DeqRank(pc: R.DeqPc): nat {
    match pc
    case DeqLoadHead(_) => 3
    case DeqRead(_) => 2
    case DeqPublish(_, _) => 1
    case _ => 0
  }

  /** How far a sender is from its eventfd write. */
  function SenderRank(s: State, j: nat): nat
    requires j < |s.senders| == |s.rings| == |s.q.producers|
  {
    match s.senders[j]
    case SIdle(_) => 20
    case SDequeue(_) => 10 + DeqRank(s.rings[j].deq)
    case SAlloc(_) => 9
    case SFill(_, _) => 8
    case SInsert(_, _) =>
      (match s.q.producers[j]
       case StoreNull(_) => 7
       case Exchange(_) => 6
       case _ => 5)
    case _ => 4
  }

  /** What a live sender does next on its way to a write that goes through. */
  function NextOf(pc: SenderPc, j: nat, c: Cell): Action {
    match pc
    case SIdle(_) => Defer(j, 1, 0)
    case SAlloc(_) => Alloc(j, c)
    case SWrite => Write(j, false)
    case _ => Send(j)
  }

  lemma {:induction false} FreshCell(s: State) returns (c: Cell)
    ensures c != Q.STUB && c !in s.place
  {
    var n := Above(s.place.Keys);
    c := n + 1;
  }

  /** A bound of a finite set. */
  lemma {:induction false} Above(cells: set<Cell>) returns (n: nat)
    ensures forall c :: c in cells ==> c <= n
    decreases |cells|
  {
    if cells == {} {
      n := 0;
    } else {
      var c :| c in cells;
      var m := Above(cells - {c});
      n := if m < c then c else m;
      assert forall d :: d in cells ==> d == c || d in cells - {c};
    }
  }

  /** Nobody but j is between exchange and link. */
  ghost predicate OnlyLink(s: State, j: nat) {
    forall p :: 0 <= p < |s.q.producers| && p != j ==> !s.q.producers[p].Link?
  }

  lemma {:induction false} DequeueNearer(s: State, j: nat)
    requires Sized(s) && j < |s.senders| && SenderOk(s, j) && s.senders[j].SDequeue?
    ensures var s' := SendStep(s, j);
      Sized(s') && |s'.senders| == |s.senders| && Live(s'.senders[j]) && SenderRank(s', j) < SenderRank(s, j) &&
        s'.q == s.q && s'.target == s.target
  {
  }

  lemma {:induction false} SendNearer(s: State, j: nat)
    requires Sized(s) && j < |s.senders| && SenderOk(s, j) && (s.senders[j].SFill? || s.senders[j].SInsert?)
    ensures var s' := SendStep(s, j);
      && Sized(s') && |s'.senders| == |s.senders| && Live(s'.senders[j]) && SenderRank(s', j) < SenderRank(s, j) &&
        s'.target == s.target
      && (OnlyLink(s, j) ==> OnlyLink(s', j))
  {
    if s.senders[j].SInsert? {
      Q.ProduceFrame(s.q, j);
    }
  }

  /** A live sender's next step brings it nearer to its write, or is the write. */
  lemma {:induction false} Nearer(s: State, j: nat, c: Cell)
    requires Sized(s) && j < |s.senders| && SenderOk(s, j) && Live(s.senders[j]) && c != Q.STUB && c !in s.place &&
      OnlyLink(s, j)
    ensures var a := NextOf(s.senders[j], j, c);
      && Enabled(s, a)
      && var s' := Next(s, a);
         && Sized(s') && |s'.senders| == |s.senders| && s'.target == s.target && OnlyLink(s', j)
         && if s.senders[j].SWrite? then s'.eventfd > 0 && s'.q == s.q
            else Live(s'.senders[j]) && SenderRank(s', j) < SenderRank(s, j)
  {
    hide SendStep;
    match s.senders[j]
    case SDequeue(_) => DequeueNearer(s, j);
    case SFill(_, _) => SendNearer(s, j);
    case SInsert(_, _) => SendNearer(s, j);
    case _ =>
  }

  lemma {:induction false} NoLinkLeft(s: State, j: nat)
    requires Sized(s) && j < |s.senders| && SenderOk(s, j) && s.senders[j].SWrite? && OnlyLink(s, j)
    ensures !Q.AnyLink(s.q)
  {
  }

  /** A live sender, whatever it is doing, can wake the target. */
  lemma {:induction false} SenderRefills(s: State, i: nat, j: nat)
    requires OnItsWay(s, i) && s.target.TWait? && j < |s.senders| && Live(s.senders[j]) && OnlyLink(s, j)
    ensures Refills(s, i)
    decreases SenderRank(s, j)
  {
    hide Q.Inv, Wake, OnePlace, Faithful, Homes, Homed, Refills, Next, SenderRank, Enabled, OnlyLink, SenderOk,
      Q.AnyLink;
    var c := FreshCell(s);
    assert SenderOk(s, j);
    Nearer(s, j, c);
    if s.senders[j].SWrite? {
      NoLinkLeft(s, j);
    }
    var s1, home := OneMore(s, NextOf(s.senders[j], j, c), i);
    if !home {
      if s.senders[j].SWrite? {
        WokenRefills(s1, i);
      } else {
        SenderRefills(s1, i, j);
      }
    }
  }

  /** Somebody is left to wake the target, or the writes so far did. */
  ghost predicate Hope(s: State) {
    !s.writes.OnlyFailed? || exists j :: 0 <= j < |s.senders| && Live(s.senders[j])
  }

  lemma {:induction false} WaitingRefills(s: State, i: nat)
    requires OnItsWay(s, i) && s.target.TWait? && !Q.AnyLink(s.q) && Hope(s)
    ensures Refills(s, i)
  {
    hide Q.Inv, OnePlace, Faithful, Homes, Homed, Refills;
    WaitingIsQueued(s, i);
    if s.eventfd > 0 {
      WokenRefills(s, i);
    } else if Owing(s) {
      var j :| 0 <= j < |s.senders| && j < |s.q.producers| && (s.senders[j].SWrite? || s.q.producers[j].Link?);
      SenderRefills(s, i, j);
    } else {
      var j :| 0 <= j < |s.senders| && Live(s.senders[j]);
      SenderRefills(s, i, j);
    }
  }

  lemma {:induction false} PollStepIs(s: State)
    requires Sized(s) && TargetOk(s) && s.target.TPoll? && !Q.AnyLink(s.q)
    ensures var s' := TargetStep(s);
      && !Q.AnyLink(s'.q) && s'.senders == s.senders && s'.writes == s.writes
      && (s'.target.TPoll? || s'.target.TRun? || s'.target.TWait?)
      && (s'.target.TPoll? ==> PollRank(s'.q.consumer) < PollRank(s.q.consumer))
  {
    PollIsWaitFree(s.q);
    Q.ConsumeFrame(s.q);
    hide Q.ConsumeStep;
  }

  /** The poll in progress ends; whatever it answers, the cell gets home. */
  lemma {:induction false} PollRefills(s: State, i: nat)
    requires OnItsWay(s, i) && s.target.TPoll? && !Q.AnyLink(s.q) && Hope(s)
    ensures Refills(s, i)
    decreases PollRank(s.q.consumer)
  {
    hide Q.Inv, OnePlace, Faithful, Homes, Homed, Refills, Q.AnyLink, TargetStep, PollRank, Wake;
    PollStepIs(s);
    var s1, home := OneMore(s, Target, i);
    if !home {
      if s1.target.TPoll? {
        PollRefills(s1, i);
      } else if s1.target.TRun? {
        DrainRefills(s1, i);
      } else {
        WaitingRefills(s1, i);
      }
    }
  }

  lemma {:induction false} SettledRefills(s: State, i: nat)
    requires OnItsWay(s, i) && !Q.AnyLink(s.q) && Hope(s)
    ensures Refills(s, i)
  {
    hide Inv, Homes, Homed, Refills, Q.AnyLink;
    if s.target.TPoll? {
      PollRefills(s, i);
    } else if s.target.TWait? {
      WaitingRefills(s, i);
    } else {
      DrainRefills(s, i);
    }
  }

  lemma {:induction false} LinkSettles(s: State, p: nat)
    requires Sized(s) && p < |s.senders| && SenderOk(s, p) && s.q.producers[p].Link?
    ensures Enabled(s, Send(p))
    ensures var s' := SendStep(s, p);
      && Sized(s') && s'.senders[p].SWrite? && |s'.q.producers| == |s.q.producers| && !s'.q.producers[p].Link?
      && forall q :: 0 <= q < |s.q.producers| && q != p ==> s'.q.producers[q] == s.q.producers[q]
  {
    Q.ProduceFrame(s.q, p);
  }

  /** First the inserts in flight are finished, those from k on. */
  lemma {:induction false} LinksRefill(s: State, i: nat, k: nat)
    requires OnItsWay(s, i) && Hope(s) && k <= |s.q.producers|
    requires forall p :: 0 <= p < k ==> !s.q.producers[p].Link?
    ensures Refills(s, i)
    decreases |s.q.producers| - k
  {
    hide Q.Inv, Wake, OnePlace, Faithful, Homes, Homed, Refills, SenderOk, SendStep;
    if k == |s.q.producers| {
      SettledRefills(s, i);
    } else if s.q.producers[k].Link? {
      assert SenderOk(s, k);
      LinkSettles(s, k);
      var s1, home := OneMore(s, Send(k), i);
      if !home {
        assert Live(s1.senders[k]);
        LinksRefill(s1, i, k + 1);
      }
    } else {
      LinksRefill(s, i, k + 1);
    }
  }

  // ---------------------------------------------------------------------------------------
  // Main results
  // ---------------------------------------------------------------------------------------

  lemma {:induction false} StaysEmpty(s: State, i: nat, actions: seq<Action>)
    requires Gone(s, i) && R.Items(s.rings[i].ring) == [] && !Homed(View(s), i) && ValidRun(s, actions)
    ensures var s' := Final(s, actions); i < |s'.rings| && R.Items(s'.rings[i].ring) == []
    decreases |actions|
  {
    hide Inv, Homes, Homed, R.Items;
    if actions != [] {
      StaysAway(s, actions[0], i);
      StaysEmpty(Next(s, actions[0]), i, actions[1..]);
    }
  }

  lemma {:induction false} RunHomes(s: State, actions: seq<Action>)
    requires Inv(s) && Homes(s) && ValidRun(s, actions)
    ensures Inv(Final(s, actions)) && Homes(Final(s, actions))
    decreases |actions|
  {
    hide Inv, Homes;
    if actions != [] {
      NextInv(s, actions[0]);
      NextHomes(s, actions[0]);
      RunHomes(Next(s, actions[0]), actions[1..]);
    }
  }

  lemma {:induction false} FreshHomes(s: State)
    requires Fresh(s)
    ensures Inv(s) && Homes(s)
  {
    hide Inv, Homes;
    assert ValidRun(s, []);
    ReachableInv(s, []);
    FreshHomed(s);
  }

  lemma {:induction false} FreshHomed(s: State)
    requires Fresh(s)
    ensures Homes(s)
  {
  }

  /**
   In every run, once sender i's ring is drained and freed, with two slots or more in it: no later run
   puts a cell into it if and only if no cell of sender i is queued or held by the target. Somebody
   must be left to wake the target, or its last wakeup not have failed outright; else nothing moves.
   */
  lemma {:induction false} RetiredRingStaysEmptyExactly(s0: State, before: seq<Action>, i: nat)
    requires Fresh(s0) && ValidRun(s0, before)
    requires var s := Final(s0, before);
      i < |s.senders| && s.senders[i].SGone? && i < |s.rings| && R.Items(s.rings[i].ring) == [] &&
        |s.rings[i].ring.buf| >= 2 && Hope(s)
    ensures Sized(Final(s0, before))
    ensures !Refills(Final(s0, before), i) <==> !Homed(View(Final(s0, before)), i)
  {
    FreshHomes(s0);
    RunHomes(s0, before);
    var s := Final(s0, before);
    RetiredExactly(s, i);
  }

  lemma {:induction false} RetiredExactly(s: State, i: nat)
    requires Gone(s, i) && R.Items(s.rings[i].ring) == [] && |s.rings[i].ring.buf| >= 2 && Hope(s)
    ensures !Refills(s, i) <==> !Homed(View(s), i)
  {
    hide Inv, Homes, Homed, R.Items;
    if Homed(View(s), i) {
      LinksRefill(s, i, 0);
    } else if Refills(s, i) {
      var actions :| ValidRun(s, actions) && i < |Final(s, actions).rings| &&
        R.Items(Final(s, actions).rings[i].ring) != [];
      StaysEmpty(s, i, actions);
      assert false;
    }
  }

  predicate Retires(s: State, s': State, i: nat)
    requires i < |s.senders| && i < |s'.senders|
  {
    s'.senders[i].SGone? && !s.senders[i].SGone?
  }

  /** A sender that retires in this step has none of its cells queued or held by the target. */
  ghost predicate InTime(s: State, s': State) {
    Sized(s') ==>
      forall i :: 0 <= i < |s'.senders| && i < |s.senders| && Retires(s, s', i) ==> !Homed(View(s'), i)
  }

  /** Every sender that retires does so with none of its cells queued or held by the target. */
  ghost predicate RetiresInTime(s: State, actions: seq<Action>)
    requires ValidRun(s, actions)
    decreases |actions|
  {
    actions != [] ==>
      var s' := Next(s, actions[0]);
      && InTime(s, s')
      && RetiresInTime(s', actions[1..])
  }

  /** The rings of retired senders are empty, and nothing is on its way to them. */
  ghost predicate Clean(s: State)
    requires Sized(s)
  {
    forall i :: 0 <= i < |s.senders| && s.senders[i].SGone? ==> R.Items(s.rings[i].ring) == [] && !Homed(View(s), i)
  }

  lemma {:induction false} RetiringLeavesEmpty(s: State, a: Action, i: nat)
    requires Inv(s) && Enabled(s, a) && i < |s.senders| && !s.senders[i].SGone?
    requires |Next(s, a).senders| == |s.senders| && Next(s, a).senders[i].SGone?
    ensures Sized(Next(s, a)) && R.Items(Next(s, a).rings[i].ring) == []
  {
    NextInv(s, a);
    RetiringIsDraining(s, a, i);
    DrainLeavesNothing(s, i);
    hide Inv;
    assert SenderOk(s, i);
    R.DeqStepOk(s.rings[i].ring, s.rings[i].deq, s.rings[i].enq);
  }

  lemma {:induction false} RetiringIsDraining(s: State, a: Action, i: nat)
    requires Sized(s) && Enabled(s, a) && i < |s.senders| && !s.senders[i].SGone?
    requires |Next(s, a).senders| == |s.senders| && Next(s, a).senders[i].SGone?
    ensures a == Send(i) && s.senders[i].SDrain? && Next(s, a) == DrainStep(s, i)
  {
    hide SendStep, TargetStep;
    match a
    case Send(j) => SendRetires(s, j, i);
    case Target => TargetSame(s, i);
    case _ =>
  }

  lemma {:induction false} SendRetires(s: State, j: nat, i: nat)
    requires Sized(s) && Enabled(s, Send(j)) && i < |s.senders| == |SendStep(s, j).senders|
    requires !s.senders[i].SGone? && SendStep(s, j).senders[i].SGone?
    ensures i == j && s.senders[i].SDrain? && SendStep(s, j) == DrainStep(s, i)
  {
    hide Q.ProduceStep, Q.StartInsert, R.DeqStep;
  }

  lemma {:induction false} CleanStep(s: State, a: Action)
    requires Inv(s) && Homes(s) && Sized(s) && Clean(s) && Enabled(s, a) && RetiresInTime(s, [a])
    ensures Inv(Next(s, a)) && Homes(Next(s, a)) && Sized(Next(s, a)) && Clean(Next(s, a))
  {
    hide Inv, Homes, Homed, Next, R.Items, Enabled, View, Sized, InTime;
    NextInv(s, a);
    NextHomes(s, a);
    var s' := Next(s, a);
    SameSenders(s, a);
    NextSized(s');
    forall i | 0 <= i < |s'.senders| && s'.senders[i].SGone?
      ensures i < |s'.rings| && R.Items(s'.rings[i].ring) == [] && !Homed(View(s'), i)
    {
      CleanSender(s, a, i);
    }
  }

  lemma {:induction false} NextSized(s: State)
    requires Inv(s)
    ensures Sized(s)
  {
  }

  lemma {:induction false} CleanSender(s: State, a: Action, i: nat)
    requires Inv(s) && Homes(s) && Sized(s) && Clean(s) && Enabled(s, a) && InTime(s, Next(s, a))
    requires Inv(Next(s, a)) && i < |Next(s, a).senders| == |s.senders| && Next(s, a).senders[i].SGone?
    ensures var s' := Next(s, a); Sized(s') && R.Items(s'.rings[i].ring) == [] && !Homed(View(s'), i)
  {
    hide Inv, Homes, Homed, Next, R.Items, Enabled, View;
    NextSized(Next(s, a));
    if s.senders[i].SGone? {
      StaysAway(s, a, i);
    } else {
      RetiringLeavesEmpty(s, a, i);
    }
  }

  lemma {:induction false} SameSenders(s: State, a: Action)
    requires Inv(s) && Sized(s) && Enabled(s, a)
    ensures |Next(s, a).senders| == |s.senders|
  {
    hide Inv, Q.ConsumeStep, Q.StartCall, Q.ProduceStep, Q.StartInsert, R.DeqStep, R.EnqStep, Q.Contents;
  }

  lemma {:induction false} RunClean(s: State, actions: seq<Action>)
    requires Inv(s) && Homes(s) && Sized(s) && Clean(s) && ValidRun(s, actions) && RetiresInTime(s, actions)
    ensures Sized(Final(s, actions)) && Clean(Final(s, actions))
    decreases |actions|
  {
    hide Inv, Homes, Homed, Clean, Next, Enabled, View, R.Items;
    if actions != [] {
      assert ValidRun(Next(s, actions[0]), []) && [actions[0]][1..] == [];
      CleanStep(s, actions[0]);
      RunClean(Next(s, actions[0]), actions[1..]);
    }
  }

  /**
   With senders that retire in time, every cell ever allocated is at every moment in exactly one place
   that still exists: a retired sender's ring holds none.
   */
  lemma {:induction false} CellsInLivePlaces(s: State, actions: seq<Action>)
    requires Fresh(s) && ValidRun(s, actions) && RetiresInTime(s, actions)
    ensures var s' := Final(s, actions);
      && Sized(s') && OnePlace(View(s'))
      && (forall i, c :: 0 <= i < |s'.senders| && s'.senders[i].SGone? && c in s'.place ==> s'.place[c] != InRing(i))
  {
    CellsInOnePlace(s, actions);
    FreshHomes(s);
    FreshClean(s);
    RunClean(s, actions);
    NothingInEmptyRings(Final(s, actions));
  }

  lemma {:induction false} FreshClean(s: State)
    requires Fresh(s) && Sized(s)
    ensures Clean(s)
  {
  }

  lemma {:induction false} NothingInEmptyRings(s: State)
    requires Sized(s) && OnePlace(View(s)) && Clean(s)
    ensures forall i, c :: 0 <= i < |s.senders| && s.senders[i].SGone? && c in s.place ==> s.place[c] != InRing(i)
  {
    forall i, c | 0 <= i < |s.senders| && s.senders[i].SGone? && c in s.place
      ensures s.place[c] != InRing(i)
    {
      assert View(s).rings[i] == [];
      assert Backed(View(s), c, s.place[c]);
    }
  }
}
