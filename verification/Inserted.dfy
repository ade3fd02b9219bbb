/**
 What the queue's callers see: the lists producers insert are the lists of its history, each once, whole,
 and in the order its producer inserted them.
 */
module Inserted {
  import opened Prelude
  import opened MpscQueue

  /** The list one action inserts on behalf of producer p; an empty batch is no insert. */
  function InsertedBy(a: Action, p: nat): seq<seq<Node>> {
    match a
    case InsertList(q, list) => if q == p then [list] else []
    case InsertBatch(q, list) => if q == p && list != [] then [list] else []
    case _ => []
  }

  /** The lists of producer p's calls, in the order it made them. */
  function Lists(actions: seq<Action>, p: nat): seq<seq<Node>>
    decreases |actions|
  {
    if actions == [] then [] else InsertedBy(actions[0], p) + Lists(actions[1..], p)
  }

  /** The producer whose head exchange this action is. */
  ghost function Exchanger(s: State, a: Action): seq<nat>
    requires Enabled(s, a)
  {
    if a.Produce? && s.producers[a.p].Exchange? then [a.p] else []
  }

  /** The producers of a run's head exchanges, in their order. */
  ghost function Exchangers(s: State, actions: seq<Action>): seq<nat>
    requires ValidRun(s, actions)
    decreases |actions|
  {
    if actions == [] then [] else Exchanger(s, actions[0]) + Exchangers(Next(s, actions[0]), actions[1..])
  }

  /** The list a producer has in hand, not yet exchanged in. */
  function Unlinked(pc: ProducerPc): seq<seq<Node>> {
    match pc
    case LinkBatch(list, _) => [list]
    case StoreNull(list) => [list]
    case Exchange(list) => [list]
    case _ => []
  }

  /** What a step adds to the history. */
  ghost function Added(s: State, a: Action): seq<seq<Node>>
    requires Enabled(s, a)
  {
    if Exchanger(s, a) == [] then [] else [s.producers[a.p].list]
  }

  /** What producer p was given goes on: added to the history by this step, or still in hand. */
  lemma {:induction false} StepInserts(s: State, a: Action, p: nat)
    requires Holdings(s) && Enabled(s, a) && p < |s.producers|
    ensures var s' := Next(s, a);
      && |s'.producers| == |s.producers| && s'.batches == s.batches + Added(s, a)
      && |Added(s, a)| == |Exchanger(s, a)|
      && From(Added(s, a), Exchanger(s, a), p) + Unlinked(s'.producers[p]) ==
           Unlinked(s.producers[p]) + InsertedBy(a, p)
  {
    assert s.batches + [] == s.batches;
    match a
    case Produce(q) => {
      assert HeldOk(s, s.producers[q]);
      ProduceInserts(s, q, p);
      if s.producers[q].Exchange? {
        assert [s.producers[q].list][1..] == [] && [q][1..] == [];
      }
      hide ProduceStep, HeldOk;
    }
    case InsertList(_, _) => hide Holdings;
    case InsertBatch(_, _) => hide Holdings;
    case StartPoll => hide Holdings;
    case StartIsEmpty => hide Holdings;
    case Consume => {
      ConsumeFrame(s);
      ConsumeAdds(s);
      hide Holdings, ConsumeStep;
    }
  }

  lemma {:induction false} ConsumeAdds(s: State)
    ensures ConsumeStep(s).batches == s.batches
  {
    hide AfterLoad;
  }

  lemma {:induction false} ProduceInserts(s: State, q: nat, p: nat)
    requires p < |s.producers| && q < |s.producers| && HeldOk(s, s.producers[q])
    ensures var s' := ProduceStep(s, q);
      && |s'.producers| == |s.producers|
      && (q != p || !s.producers[q].Exchange? ==> Unlinked(s'.producers[p]) == Unlinked(s.producers[p]))
      && (s.producers[q].Exchange? ==> Unlinked(s'.producers[q]) == [])
      && s'.batches == s.batches + (if s.producers[q].Exchange? then [s.producers[q].list] else [])
  {
    assert s.batches + [] == s.batches;
  }

  lemma {:induction false} RunInserts(s: State, actions: seq<Action>, p: nat)
    requires Inv(s) && ValidRun(s, actions) && p < |s.producers|
    ensures var s', who := Final(s, actions), Exchangers(s, actions);
      && |s'.producers| == |s.producers|
      && |s'.batches| == |s.batches| + |who| && s.batches <= s'.batches
      && From(s'.batches[|s.batches|..], who, p) + Unlinked(s'.producers[p]) ==
           Unlinked(s.producers[p]) + Lists(actions, p)
    decreases |actions|
  {
    hide ChainOk, Holdings, Locals, History, Next, Enabled, Exchanger, Added, Unlinked, InsertedBy;
    if actions == [] {
      assert s.batches[|s.batches|..] == [];
    } else {
      var a, rest := actions[0], actions[1..];
      var s1, s' := Next(s, a), Final(s, actions);
      NextInv(s, a);
      StepInserts(s, a, p);
      RunInserts(s1, rest, p);
      var one, more := Added(s, a), s'.batches[|s1.batches|..];
      assert s'.batches[|s.batches|..] == one + more;
      FromJoin(one, Exchanger(s, a), more, Exchangers(s1, rest), p);
      HandedOn(From(one, Exchanger(s, a), p), From(more, Exchangers(s1, rest), p), Unlinked(s'.producers[p]),
               Unlinked(s1.producers[p]), Lists(rest, p), Unlinked(s.producers[p]), InsertedBy(a, p));
    }
  }

  /**
   In every run: what poll returned, followed by what is queued, is the exchanged lists one after the other,
   and of these the ones of producer p, followed by the one it has in hand, are exactly the lists it was
   called with, in call order.
   */
  lemma {:induction false} InsertsComeOutInOrder(n: nat, actions: seq<Action>, p: nat)
    requires ValidRun(Init(n), actions) && p < n
    ensures var s, who := Final(Init(n), actions), Exchangers(Init(n), actions);
      && p < |s.producers| && |s.batches| == |who|
      && s.returned + Contents(s) == Flatten(s.batches)
      && From(s.batches, who, p) + Unlinked(s.producers[p]) == Lists(actions, p)
  {
    InitInv(n);
    Fifo(n, actions);
    RunInserts(Init(n), actions, p);
    hide Inv, Final, Exchangers, ValidRun, Lists, From, Flatten, Contents;
    var s := Final(Init(n), actions);
    assert s.batches[0..] == s.batches;
    assert Unlinked(Init(n).producers[p]) == [];
    assert [] + Lists(actions, p) == Lists(actions, p);
  }
}
