/**
 What evthr_defer's callers see of the channel: the calls they make are the commands that are queued and
 run, each with its own callback and argument and in the order its thread made the calls, and what a call
 answers is what became of its eventfd write.
 */
module Deferred {
  import Q = MpscQueue
  import R = SpscQueue
  import opened Prelude
  import opened CellFlow
  import opened Channel

  // ---------------------------------------------------------------------------------------
  // Calls and commands
  // ---------------------------------------------------------------------------------------

  /** What one action asks for on behalf of sender i; a call without a callback asks for nothing. */
  function AskedBy(threaded: bool, a: Action, i: nat): seq<Cmd> {
    match a
    case Defer(j, cb, args) => if j == i && cb != 0 then [Cmd(cb, args, if threaded then Some(i) else None)] else []
    case _ => []
  }

  /** What sender i asked for with all its calls, in the order it made them. */
  function Asked(threaded: bool, actions: seq<Action>, i: nat): seq<Cmd>
    decreases |actions|
  {
    if actions == [] then [] else AskedBy(threaded, actions[0], i) + Asked(threaded, actions[1..], i)
  }

  /** The sender whose head exchange this action is. */
  ghost function Submitter(s: State, a: Action): seq<nat>
    requires Sized(s) && Enabled(s, a)
  {
    if a.Send? && s.senders[a.i].SInsert? && s.q.producers[a.i].Exchange? then [a.i] else []
  }

  /** The senders of a run's head exchanges, in their order: who submitted each entry of the log. */
  ghost function Submitters(s: State, actions: seq<Action>): seq<nat>
    requires ValidRun(s, actions)
    decreases |actions|
  {
    if actions == [] then [] else Submitter(s, actions[0]) + Submitters(Next(s, actions[0]), actions[1..])
  }

  /** What a sender has been asked for and not yet exchanged into the queue. */
  function Unsent(pc: SenderPc, ins: Q.ProducerPc): seq<Cmd> {
    match pc
    case SDequeue(cmd) => [cmd]
    case SAlloc(cmd) => [cmd]
    case SFill(cmd, _) => [cmd]
    case SInsert(cmd, _) => if ins.StoreNull? || ins.Exchange? then [cmd] else []
    case _ => []
  }

  ghost function UnsentBy(s: State, i: nat): seq<Cmd>
    requires Sized(s) && i < |s.senders|
  {
    Unsent(s.senders[i], s.q.producers[i])
  }

  // ---------------------------------------------------------------------------------------
  // One step
  // ---------------------------------------------------------------------------------------

  /** What a step adds to the log. */
  ghost function Logged(s: State, a: Action): seq<Cmd>
    requires Sized(s) && Enabled(s, a)
  {
    if Submitter(s, a) == [] then [] else [s.senders[a.i].cmd]
  }

  lemma {:induction false} DeferAsks(s: State, a: Action, i: nat)
    requires Control(s) && a.Defer? && Enabled(s, a) && i < |s.senders|
    ensures var s' := Next(s, a);
      Sized(s') && |s'.senders| == |s.senders| && UnsentBy(s', i) == UnsentBy(s, i) + AskedBy(s.threaded[i], a, i)
  {
    hide R.StartDeq, SenderOk, TargetOk, HomesOk;
  }

  lemma {:induction false} InsertAsks(s: State, j: nat, i: nat)
    requires Control(s) && j < |s.senders| && s.senders[j].SInsert? && i < |s.senders|
    ensures var s' := InsertStep(s, j);
      && Sized(s') && |s'.senders| == |s.senders|
      && (i != j || !s.q.producers[j].Exchange? ==> UnsentBy(s', i) == UnsentBy(s, i))
      && (s.q.producers[j].Exchange? ==> UnsentBy(s', j) == [] && UnsentBy(s, j) == [s.senders[j].cmd])
      && s'.log == s.log + (if s.q.producers[j].Exchange? then [s.senders[j].cmd] else [])
  {
    assert SenderOk(s, j);
    Q.ProduceFrame(s.q, j);
    InsertTurns(s, j);
    hide SenderOk, TargetOk, HomesOk, Q.ProduceStep;
    assert s.log + [] == s.log;
  }

  /** Where an insert goes from each of its states. */
  lemma {:induction false} InsertTurns(s: State, j: nat)
    requires Sized(s) && j < |s.senders| && SenderOk(s, j) && s.senders[j].SInsert?
    ensures var pc, pc' := s.q.producers[j], Q.ProduceStep(s.q, j).producers[j];
      && (pc.StoreNull? || pc.Exchange? || pc.Link?)
      && (pc.StoreNull? ==> pc'.Exchange?) && (pc.Exchange? ==> pc'.Link?)
  {
  }

  lemma {:induction false} SendAsks(s: State, j: nat, i: nat)
    requires Control(s) && Enabled(s, Send(j)) && i < |s.senders| && !s.senders[j].SInsert?
    ensures var s' := SendStep(s, j);
      Sized(s') && |s'.senders| == |s.senders| && s'.log == s.log && UnsentBy(s', i) == UnsentBy(s, i)
  {
    assert SenderOk(s, j);
    hide R.DeqStep, R.StartDeq, R.Inv, TargetOk, HomesOk;
    match s.senders[j]
    case SDequeue(_) =>
    case SFill(_, _) =>
    case SDrain =>
  }

  lemma {:induction false} TargetAsks(s: State, i: nat)
    requires Control(s) && i < |s.senders|
    ensures var s' := TargetStep(s);
      Sized(s') && |s'.senders| == |s.senders| && s'.log == s.log && UnsentBy(s', i) == UnsentBy(s, i)
  {
    Q.ConsumeFrame(s.q);
    hide Q.ConsumeStep, R.EnqStep, R.StartEnq, SenderOk;
  }

  /** What sender i was asked for goes on: submitted by this step, or still to be. */
  lemma {:induction false} StepAsks(s: State, a: Action, i: nat)
    requires Control(s) && Enabled(s, a) && i < |s.senders|
    ensures var s' := Next(s, a);
      && Sized(s') && |s'.senders| == |s.senders| && s'.threaded == s.threaded
      && s'.log == s.log + Logged(s, a)
      && From(Logged(s, a), Submitter(s, a), i) + UnsentBy(s', i) == UnsentBy(s, i) + AskedBy(s.threaded[i], a, i)
  {
    SameThreads(s, a);
    assert s.log + [] == s.log;
    match a
    case Defer(_, _, _) => {
      hide SenderOk, TargetOk, HomesOk, UnsentBy;
      DeferAsks(s, a, i);
    }
    case Send(j) => {
      hide SenderOk, TargetOk, HomesOk, UnsentBy, DequeueStep, FillStep, DrainStep;
      if s.senders[j].SInsert? {
        InsertAsks(s, j, i);
        assert [s.senders[j].cmd][1..] == [] && [j][1..] == [];
      } else {
        SendAsks(s, j, i);
      }
    }
    case Target => {
      hide TargetStep, UnsentBy;
      TargetAsks(s, i);
    }
    case _ => {
      hide SenderOk, TargetOk, HomesOk, UnsentBy;
      OtherAsks(s, a, i);
    }
  }

  lemma {:induction false} OtherAsks(s: State, a: Action, i: nat)
    requires Control(s) && Enabled(s, a) && (a.Alloc? || a.Write? || a.StartFree?) && i < |s.senders|
    ensures var s' := Next(s, a);
      Sized(s') && |s'.senders| == |s.senders| && s'.log == s.log && UnsentBy(s', i) == UnsentBy(s, i)
  {
    hide SenderOk, TargetOk, HomesOk, R.StartDeq;
  }

  lemma {:induction false} SameThreads(s: State, a: Action)
    requires Sized(s) && Enabled(s, a)
    ensures Next(s, a).threaded == s.threaded
  {
    hide Q.ConsumeStep, Q.StartCall, Q.ProduceStep, Q.StartInsert, R.DeqStep, R.EnqStep, R.StartDeq, R.StartEnq;
  }

  // ---------------------------------------------------------------------------------------
  // Whole runs
  // ---------------------------------------------------------------------------------------

  lemma {:induction false} RunAsks(s: State, actions: seq<Action>, i: nat)
    requires Inv(s) && ValidRun(s, actions) && Sized(s) && i < |s.senders|
    ensures var s', who := Final(s, actions), Submitters(s, actions);
      && Sized(s') && |s'.senders| == |s.senders|
      && |s'.log| == |s.log| + |who| && s.log <= s'.log
      && From(s'.log[|s.log|..], who, i) + UnsentBy(s', i) == UnsentBy(s, i) + Asked(s.threaded[i], actions, i)
    decreases |actions|
  {
    hide Q.Inv, Wake, OnePlace, Faithful, SenderOk, TargetOk, HomesOk;
    hide Next, Enabled, Submitter, Logged, UnsentBy, AskedBy;
    if actions == [] {
      assert s.log[|s.log|..] == [];
    } else {
      var a, rest := actions[0], actions[1..];
      var s1, s', t := Next(s, a), Final(s, actions), s.threaded[i];
      NextInv(s, a);
      StepAsks(s, a, i);
      SubmitterCounts(s, a);
      RunAsks(s1, rest, i);
      var one, more := Logged(s, a), s'.log[|s1.log|..];
      assert s'.log[|s.log|..] == one + more;
      FromJoin(one, Submitter(s, a), more, Submitters(s1, rest), i);
      HandedOn(From(one, Submitter(s, a), i), From(more, Submitters(s1, rest), i), UnsentBy(s', i), UnsentBy(s1, i),
               Asked(t, rest, i), UnsentBy(s, i), AskedBy(t, a, i));
    }
  }

  lemma {:induction false} SubmitterCounts(s: State, a: Action)
    requires Sized(s) && Enabled(s, a)
    ensures |Logged(s, a)| == |Submitter(s, a)|
  {
  }

  /**
   In every run, every entry of the log has a submitter, and what a sender submitted, followed by what it
   has under way, is exactly what its evthr_defer calls asked for: callback, argument and home ring, each
   call once and in call order.
   */
  lemma {:induction false} CallsAreSubmitted(s: State, actions: seq<Action>, i: nat)
    requires Fresh(s) && ValidRun(s, actions) && i < |s.senders|
    ensures var s', who := Final(s, actions), Submitters(s, actions);
      && Sized(s) && Sized(s') && i < |s'.senders| && |s'.log| == |who|
      && From(s'.log, who, i) + UnsentBy(s', i) == Asked(s.threaded[i], actions, i)
  {
    assert ValidRun(s, []);
    ReachableInv(s, []);
    FreshIdle(s, i);
    RunAsks(s, actions, i);
    var s' := Final(s, actions);
    assert s'.log[0..] == s'.log;
    assert [] + Asked(s.threaded[i], actions, i) == Asked(s.threaded[i], actions, i);
  }

  lemma {:induction false} FreshIdle(s: State, i: nat)
    requires Fresh(s) && i < |s.senders|
    ensures Sized(s) && s.log == [] && s.eventfd == 0 && UnsentBy(s, i) == []
  {
  }

  /**
   So once the target waits with nothing to read, nobody is on the way to a write and not every last write
   failed, what was run on behalf of a sender with no call under way is exactly what its calls asked for.
   */
  lemma {:induction false} EveryCallHasRun(s: State, actions: seq<Action>, i: nat)
    requires Fresh(s) && ValidRun(s, actions) && i < |s.senders|
    requires var s' := Final(s, actions); s'.target.TWait? && s'.eventfd == 0 && !Owing(s') && !s'.writes.OnlyFailed?
    ensures var s', who := Final(s, actions), Submitters(s, actions);
      && Sized(s) && Sized(s') && i < |s'.senders| && |s'.ran| == |who|
      && (UnsentBy(s', i) == [] ==> From(s'.ran, who, i) == Asked(s.threaded[i], actions, i))
  {
    hide Owing, Final, Submitters, ValidRun, UnsentBy, Asked, From, Q.Contents;
    CallsAreSubmitted(s, actions, i);
    WaitingMeansAllRun(s, actions);
    var mine := From(Final(s, actions).log, Submitters(s, actions), i);
    assert mine + [] == mine;
  }

  // ---------------------------------------------------------------------------------------
  // Answers
  // ---------------------------------------------------------------------------------------

  lemma {:induction false} CounterFits(s: State, actions: seq<Action>)
    requires ValidRun(s, actions) && s.eventfd <= EVENTFD_MAX
    ensures Final(s, actions).eventfd <= EVENTFD_MAX
    decreases |actions|
  {
    hide Next;
    if actions != [] {
      StepCounts(s, actions[0]);
      CounterFits(Next(s, actions[0]), actions[1..]);
    }
  }

  /** The counter goes up by one with a write that got through, down to zero when it is read, and else stays. */
  lemma {:induction false} StepCounts(s: State, a: Action)
    requires Sized(s) && Enabled(s, a) && s.eventfd <= EVENTFD_MAX
    ensures Next(s, a).eventfd <= EVENTFD_MAX
    ensures !a.Write? && !a.Target? ==> Next(s, a).eventfd == s.eventfd
  {
    hide Q.ConsumeStep, Q.StartCall, Q.ProduceStep, Q.StartInsert, R.DeqStep, R.EnqStep, R.StartDeq, R.StartEnq;
  }

  /**
   What evthr_defer answers at the end of any run: OK exactly if the counter went up, RETRY exactly if the
   write went to a counter that was full, and so readable, FATAL exactly if the write failed. Whatever the
   answer, everything the sender ever asked for is submitted.
   */
  lemma {:induction false} AnswerMeans(s: State, actions: seq<Action>, i: nat, fails: bool)
    requires Fresh(s) && ValidRun(s, actions) && i < |s.senders| && Enabled(Final(s, actions), Write(i, fails))
    ensures var s1 := Final(s, actions);
      && Sized(s1) && var s2 := Next(s1, Write(i, fails));
      && i < |s2.senders| && s2.senders[i].SIdle?
      && (s2.senders[i].result.OkResult? <==> s2.eventfd == s1.eventfd + 1)
      && (s2.senders[i].result.RetryResult? <==> s2.eventfd == s1.eventfd == EVENTFD_MAX && !fails)
      && (s2.senders[i].result.FatalResult? <==> fails)
      && Sized(s) && |s1.log| == |Submitters(s, actions)|
      && s2.log == s1.log && From(s1.log, Submitters(s, actions), i) == Asked(s.threaded[i], actions, i)
  {
    FreshIdle(s, i);
    CallsAreSubmitted(s, actions, i);
    CounterFits(s, actions);
    var s1 := Final(s, actions);
    hide Final, Submitters, ValidRun, Asked, From;
    var mine := From(s1.log, Submitters(s, actions), i);
    assert mine + [] == mine;
  }

  /** A call without a callback is answered at once, asks for nothing and changes nothing; any other is under way. */
  lemma {:induction false} NoCallbackIsRefused(s: State, i: nat, cb: nat, args: nat)
    requires Inv(s) && Sized(s) && Enabled(s, Defer(i, cb, args))
    ensures var s' := Next(s, Defer(i, cb, args));
      && i < |s'.senders|
      && (cb == 0 <==> s'.senders[i] == SIdle(NoCbResult))
      && (cb == 0 ==> s' == s.(senders := s'.senders) && s'.senders == s.senders[i := s'.senders[i]])
  {
    hide Inv, R.StartDeq;
  }
}
