/**
 The life of a command cell (struct evthr_cmd in thread.c) between a sender's hand, the target's
 queue, the target while it runs the command, a recycle ring, and the allocator: the abstract
 machine that the channel of Channel.dfy refines.
 */
module CellFlow {
  import opened Prelude
  import Q = MpscQueue

  /** A cell is named by the address of its queue node. */
  type Cell = nat

  /** cb, args and msg_cache_p: `home` is the sender whose ring the cell goes back to. */
  datatype Cmd = Cmd(cb: nat, args: nat, home: Option<nat>)

  /** What a sender holds: nothing, a cell, or a cell with the command of this call written in. */
  datatype Hand = Free | Got(cell: Cell) | Filled(cell: Cell, cmd: Cmd)

  /** What the target holds: nothing, or a cell whose command has been run or not. */
  datatype Busy = Nothing | Holds(cell: Cell, done: bool)

  datatype Place = InHand(i: nat) | Queued | Running | InRing(i: nat) | Freed

  datatype Flow = Flow(
    hands: seq<Hand>,
    queue: seq<Cell>,
    busy: Busy,
    rings: seq<seq<Cell>>,
    payload: map<Cell, Cmd>,
    place: map<Cell, Place>,
    log: seq<Cmd>,
    ran: seq<Cmd>)

  datatype Move =
    | Stutter
    | Allocate(i: nat, c: Cell)
    | Reuse(i: nat)
    | Fill(i: nat, cmd: Cmd)
    | Submit(i: nat)
    | Take
    | Execute
    | Recycle(i: nat)
    | Drop
    | Release(i: nat)

  ghost predicate Allowed(f: Flow, m: Move) {
    match m
    case Stutter => true
    case Allocate(i, c) =>
      i < |f.hands| && f.hands[i].Free? && c != Q.STUB && (c !in f.place || f.place[c].Freed?)
    case Reuse(i) => i < |f.hands| && f.hands[i].Free? && i < |f.rings| && f.rings[i] != []
    case Fill(i, _) => i < |f.hands| && f.hands[i].Got?
    case Submit(i) => i < |f.hands| && f.hands[i].Filled?
    case Take => f.busy.Nothing? && f.queue != []
    case Execute => f.busy.Holds? && !f.busy.done && f.busy.cell in f.payload
    case Recycle(i) => f.busy.Holds? && f.busy.done && i < |f.rings|
    case Drop => f.busy.Holds? && f.busy.done
    case Release(i) => i < |f.rings| && f.rings[i] != []
  }

  ghost function Apply(f: Flow, m: Move): Flow
    requires Allowed(f, m)
  {
    match m
    case Stutter => f
    case Allocate(i, c) => f.(hands := f.hands[i := Got(c)], place := f.place[c := InHand(i)])
    case Reuse(i) =>
      var c := f.rings[i][0];
      f.(hands := f.hands[i := Got(c)], rings := f.rings[i := f.rings[i][1..]], place := f.place[c := InHand(i)])
    case Fill(i, cmd) =>
      var c := f.hands[i].cell;
      f.(hands := f.hands[i := Filled(c, cmd)], payload := f.payload[c := cmd])
    case Submit(i) =>
      var Filled(c, cmd) := f.hands[i];
      f.(hands := f.hands[i := Free], queue := f.queue + [c], place := f.place[c := Queued], log := f.log + [cmd])
    case Take =>
      var c := f.queue[0];
      f.(queue := f.queue[1..], busy := Holds(c, false), place := f.place[c := Running])
    case Execute => f.(ran := f.ran + [f.payload[f.busy.cell]], busy := Holds(f.busy.cell, true))
    case Recycle(i) =>
      var c := f.busy.cell;
      f.(busy := Nothing, rings := f.rings[i := f.rings[i] + [c]], place := f.place[c := InRing(i)])
    case Drop => f.(busy := Nothing, place := f.place[f.busy.cell := Freed])
    case Release(i) =>
      f.(rings := f.rings[i := f.rings[i][1..]], place := f.place[f.rings[i][0] := Freed])
  }

  // ---------------------------------------------------------------------------------------
  // Every cell is in exactly one place
  // ---------------------------------------------------------------------------------------

  ghost predicate At(f: Flow, c: Cell, p: Place) {
    c in f.place && f.place[c] == p
  }

  /** The places list the cells... */
  ghost predicate Listed(f: Flow) {
    && (forall i :: 0 <= i < |f.hands| && !f.hands[i].Free? ==> At(f, f.hands[i].cell, InHand(i)))
    && (forall k :: 0 <= k < |f.queue| ==> At(f, f.queue[k], Queued))
    && (f.busy.Holds? ==> At(f, f.busy.cell, Running))
    && (forall i, k :: 0 <= i < |f.rings| && 0 <= k < |f.rings[i]| ==> At(f, f.rings[i][k], InRing(i)))
  }

  /** ... and each cell's place is where it is listed. */
  ghost predicate Backed(f: Flow, c: Cell, p: Place) {
    match p
    case InHand(i) => i < |f.hands| && !f.hands[i].Free? && f.hands[i].cell == c
    case Queued => c in f.queue
    case Running => f.busy.Holds? && f.busy.cell == c
    case InRing(i) => i < |f.rings| && c in f.rings[i]
    case Freed => true
  }

  ghost predicate OnePlace(f: Flow) {
    && Q.STUB !in f.place
    && Listed(f)
    && (forall c :: c in f.place ==> Backed(f, c, f.place[c]))
    && Distinct(f.queue)
    && (forall i :: 0 <= i < |f.rings| ==> Distinct(f.rings[i]))
  }

  lemma {:induction false} AllocateOnePlace(f: Flow, i: nat, c: Cell)
    requires OnePlace(f) && Allowed(f, Allocate(i, c))
    ensures OnePlace(Apply(f, Allocate(i, c)))
  {
  }

  lemma {:induction false} ReuseOnePlace(f: Flow, i: nat)
    requires OnePlace(f) && Allowed(f, Reuse(i))
    ensures OnePlace(Apply(f, Reuse(i)))
  {
    var f' := Apply(f, Reuse(i));
    var c := f.rings[i][0];
    assert At(f, c, InRing(i));
    assert forall d :: d in f.rings[i] && d != c ==> d in f'.rings[i];
  }

  lemma {:induction false} FillOnePlace(f: Flow, i: nat, cmd: Cmd)
    requires OnePlace(f) && Allowed(f, Fill(i, cmd))
    ensures OnePlace(Apply(f, Fill(i, cmd)))
  {
  }

  lemma {:induction false} SubmitOnePlace(f: Flow, i: nat)
    requires OnePlace(f) && Allowed(f, Submit(i))
    ensures OnePlace(Apply(f, Submit(i)))
  {
    var f' := Apply(f, Submit(i));
    var c := f.hands[i].cell;
    assert At(f, c, InHand(i));
    assert f'.queue[|f.queue|] == c;
    assert forall d :: d in f.queue ==> d in f'.queue;
  }

  lemma {:induction false} TakeOnePlace(f: Flow)
    requires OnePlace(f) && Allowed(f, Take)
    ensures OnePlace(Apply(f, Take))
  {
    var f' := Apply(f, Take);
    var c := f.queue[0];
    assert At(f, c, Queued);
    assert forall d :: d in f.queue && d != c ==> d in f'.queue;
  }

  lemma {:induction false} RecycleOnePlace(f: Flow, i: nat)
    requires OnePlace(f) && Allowed(f, Recycle(i))
    ensures OnePlace(Apply(f, Recycle(i)))
  {
    var f' := Apply(f, Recycle(i));
    var c := f.busy.cell;
    assert f'.rings[i][|f.rings[i]|] == c;
    assert forall d :: d in f.rings[i] ==> d in f'.rings[i];
  }

  lemma {:induction false} DropOnePlace(f: Flow)
    requires OnePlace(f) && Allowed(f, Drop)
    ensures OnePlace(Apply(f, Drop))
  {
  }

  lemma {:induction false} ReleaseOnePlace(f: Flow, i: nat)
    requires OnePlace(f) && Allowed(f, Release(i))
    ensures OnePlace(Apply(f, Release(i)))
  {
    var f' := Apply(f, Release(i));
    var c := f.rings[i][0];
    assert At(f, c, InRing(i));
    assert forall d :: d in f.rings[i] && d != c ==> d in f'.rings[i];
  }

  lemma {:induction false} MoveOnePlace(f: Flow, m: Move)
    requires OnePlace(f) && Allowed(f, m)
    ensures OnePlace(Apply(f, m))
  {
    match m
    case Stutter =>
    case Allocate(i, c) => AllocateOnePlace(f, i, c);
    case Reuse(i) => ReuseOnePlace(f, i);
    case Fill(i, cmd) => FillOnePlace(f, i, cmd);
    case Submit(i) => SubmitOnePlace(f, i);
    case Take => TakeOnePlace(f);
    case Execute =>
    case Recycle(i) => RecycleOnePlace(f, i);
    case Drop => DropOnePlace(f);
    case Release(i) => ReleaseOnePlace(f, i);
  }

  // ---------------------------------------------------------------------------------------
  // Every command runs once, in order, with its own cb and args
  // ---------------------------------------------------------------------------------------

  ghost function Payloads(payload: map<Cell, Cmd>, queue: seq<Cell>): seq<Cmd>
    requires forall k :: 0 <= k < |queue| ==> queue[k] in payload
  {
    seq(|queue|, k requires 0 <= k < |queue| => payload[queue[k]])
  }

  /** The command the target holds and has not run yet. */
  ghost function Waiting(f: Flow): seq<Cmd>
    requires f.busy.Holds? ==> f.busy.cell in f.payload
  {
    if f.busy.Holds? && !f.busy.done then [f.payload[f.busy.cell]] else []
  }

  /** A submitted cell still holds its command, and run + running + queued is the log. */
  ghost predicate Faithful(f: Flow) {
    && (forall i :: 0 <= i < |f.hands| && f.hands[i].Filled? ==>
          f.hands[i].cell in f.payload && f.payload[f.hands[i].cell] == f.hands[i].cmd)
    && (forall k :: 0 <= k < |f.queue| ==> f.queue[k] in f.payload)
    && (f.busy.Holds? ==> f.busy.cell in f.payload)
    && f.ran + Waiting(f) + Payloads(f.payload, f.queue) == f.log
  }

  lemma {:induction false} MoveFaithful(f: Flow, m: Move)
    requires OnePlace(f) && Faithful(f) && Allowed(f, m)
    ensures Faithful(Apply(f, m))
  {
    match m
    case Fill(i, cmd) => {
      HandApart(f, i);
      hide OnePlace;
      FillFaithful(f, i, cmd);
    }
    case Submit(i) => {
      hide OnePlace;
      SubmitFaithful(f, i);
    }
    case Take => {
      hide OnePlace;
      TakeFaithful(f);
    }
    case _ => {
      hide OnePlace;
      OtherFaithful(f, m);
    }
  }

  /** A cell in a hand is not queued, not held by the target and in no other hand. */
  lemma {:induction false} HandApart(f: Flow, i: nat)
    requires OnePlace(f) && i < |f.hands| && !f.hands[i].Free?
    ensures var c := f.hands[i].cell;
      && (forall k :: 0 <= k < |f.queue| ==> f.queue[k] != c) && (f.busy.Holds? ==> f.busy.cell != c)
      && (forall j :: 0 <= j < |f.hands| && j != i && !f.hands[j].Free? ==> f.hands[j].cell != c)
  {
    assert At(f, f.hands[i].cell, InHand(i));
  }

  lemma {:induction false} FillFaithful(f: Flow, i: nat, cmd: Cmd)
    requires Faithful(f) && Allowed(f, Fill(i, cmd))
    requires var c := f.hands[i].cell;
      && (forall k :: 0 <= k < |f.queue| ==> f.queue[k] != c) && (f.busy.Holds? ==> f.busy.cell != c)
      && (forall j :: 0 <= j < |f.hands| && j != i && !f.hands[j].Free? ==> f.hands[j].cell != c)
    ensures Faithful(Apply(f, Fill(i, cmd)))
  {
    var f' := Apply(f, Fill(i, cmd));
    assert Payloads(f'.payload, f'.queue) == Payloads(f.payload, f.queue);
  }

  lemma {:induction false} SubmitFaithful(f: Flow, i: nat)
    requires Faithful(f) && Allowed(f, Submit(i))
    ensures Faithful(Apply(f, Submit(i)))
  {
    var f' := Apply(f, Submit(i));
    assert Payloads(f'.payload, f'.queue) == Payloads(f.payload, f.queue) + [f.hands[i].cmd];
  }

  lemma {:induction false} TakeFaithful(f: Flow)
    requires Faithful(f) && Allowed(f, Take)
    ensures Faithful(Apply(f, Take))
  {
    var f' := Apply(f, Take);
    assert Payloads(f.payload, f.queue) == [f.payload[f.queue[0]]] + Payloads(f'.payload, f'.queue);
  }

  lemma {:induction false} OtherFaithful(f: Flow, m: Move)
    requires Faithful(f) && Allowed(f, m) && !m.Fill? && !m.Submit? && !m.Take?
    ensures Faithful(Apply(f, m))
  {
    var f' := Apply(f, m);
    assert Payloads(f'.payload, f'.queue) == Payloads(f.payload, f.queue);
  }
}
