/**
 Machines that read a stream by steps and keep no buffer: a step looks at the unconsumed bytes
 and either is stuck or consumes some of them. Here is what it takes for such a machine not to
 notice how its stream is cut or how often it is paused, and, when it does notice, where.
 */
module Incremental {

  datatype Stepped<+S> = Stuck | Did(s: S, n: nat)

  datatype Machine<!S> = Machine(
    step: (S, string) -> Stepped<S>,
    ok: S -> bool,
    rank: S -> nat,
    total: S -> nat,
    ends: S -> bool,
    calls: (S, S) -> nat,
    edge: (S, string) -> bool,
    cut: (S, string) -> nat,
    dead: S -> bool)

  /** Steps keep `ok`, use bytes or go down in rank, and `total` counts the bytes. */
  ghost predicate Sound<S(!new)>(m: Machine<S>) {
    forall s, data :: m.ok(s) && m.step(s, data).Did? ==>
      var r := m.step(s, data);
      r.n <= |data| && m.ok(r.s) && (r.n == 0 ==> m.rank(r.s) < m.rank(s)) && m.total(r.s) == m.total(s) + r.n
  }

  datatype RunResult<S> = RunResult(s: S, n: nat, calls: nat, paused: bool)

  /** Some hook call numbered from..to asked for a pause. */
  predicate Pauses(pause: nat -> bool, from: nat, to: nat) {
    exists i :: from <= i < to && pause(i)
  }

  lemma {:induction false} PausesJoin(pause: nat -> bool, a: nat, b: nat, c: nat)
    requires a <= b <= c
    ensures Pauses(pause, a, c) <==> Pauses(pause, a, b) || Pauses(pause, b, c)
  {
    if i :| a <= i < c && pause(i) {
      assert i < b ==> Pauses(pause, a, b);
    }
  }

  /**
   One run: steps until one is stuck, one ends the run, or a hook of the step just done asked for a
   pause. `calls` numbers the hook calls of the machine's life.
   */
  function Run<S(!new)>(m: Machine<S>, pause: nat -> bool, s: S, calls: nat, data: string): (r: RunResult<S>)
    requires Sound(m) && m.ok(s)
    ensures r.n <= |data| && m.ok(r.s) && m.total(r.s) == m.total(s) + r.n
    ensures (r.n == 0 && r.s == s && m.step(s, data).Stuck?) || r.n > 0 || m.rank(r.s) < m.rank(s)
    decreases |data|, m.rank(s)
  {
    match m.step(s, data)
    case Stuck => RunResult(s, 0, calls, false)
    case Did(s', n) =>
      var calls' := calls + m.calls(s, s');
      var paused := Pauses(pause, calls, calls');
      if m.ends(s) || paused then RunResult(s', n, calls', paused)
      else
        var r := Run(m, pause, s', calls', data[n..]);
        r.(n := r.n + n)
  }

  datatype Outcome<S> = Outcome(s: S, rest: string)

  /** Steps until one is stuck, across the ends of runs and never pausing. */
  function Exhaust<S(!new)>(m: Machine<S>, s: S, data: string): (o: Outcome<S>)
    requires Sound(m) && m.ok(s)
    ensures m.ok(o.s) && m.step(o.s, o.rest).Stuck?
    decreases |data|, m.rank(s)
  {
    match m.step(s, data)
    case Stuck => Outcome(s, data)
    case Did(s', n) => Exhaust(m, s', data[n..])
  }

  datatype Driven<S> = Driven(s: S, rest: string, calls: nat)

  /** The caller: run, resume if paused, run again on what is left, until a run does nothing. */
  function Drive<S(!new)>(m: Machine<S>, pause: nat -> bool, s: S, calls: nat, data: string): (d: Driven<S>)
    requires Sound(m) && m.ok(s)
    ensures m.ok(d.s)
    decreases |data|, m.rank(s)
  {
    var r := Run(m, pause, s, calls, data);
    if r.n == 0 && m.rank(r.s) >= m.rank(s) then Driven(s, data, calls)
    else Drive(m, pause, r.s, r.calls, data[r.n..])
  }

  /** The caller with a stream that arrives in pieces: the tail it could not use is presented again. */
  function Feed<S(!new)>(m: Machine<S>, pause: nat -> bool, d: Driven<S>, pieces: seq<string>): (d': Driven<S>)
    requires Sound(m) && m.ok(d.s)
    ensures m.ok(d'.s)
    decreases |pieces|
  {
    if pieces == [] then d
    else Feed(m, pause, Drive(m, pause, d.s, d.calls, d.rest + pieces[0]), pieces[1..])
  }

  function Concat(pieces: seq<string>): string {
    if pieces == [] then [] else pieces[0] + Concat(pieces[1..])
  }

  /** Having done n bytes' worth of steps, a run is at s1 and has the rest to do, unless it was just paused. */
  ghost predicate RunsTo<S(!new)>(m: Machine<S>, pause: nat -> bool, s0: S, c0: nat, data: string,
                                  n: nat, s1: S, c1: nat, paused: bool)
    requires Sound(m) && m.ok(s0)
  {
    && n <= |data| && m.ok(s1)
    && Run(m, pause, s0, c0, data) ==
         if paused then RunResult(s1, n, c1, true)
         else var r := Run(m, pause, s1, c1, data[n..]); r.(n := r.n + n)
  }

  lemma {:induction false} RunsToStart<S(!new)>(m: Machine<S>, pause: nat -> bool, s: S, c: nat, data: string)
    requires Sound(m) && m.ok(s)
    ensures RunsTo(m, pause, s, c, data, 0, s, c, false)
  {
    assert data[0..] == data;
  }

  lemma {:induction false} RunsToStep<S(!new)>(m: Machine<S>, pause: nat -> bool, s0: S, c0: nat, data: string,
                                               n: nat, s1: S, c1: nat, s2: S, k: nat)
    requires Sound(m) && m.ok(s0) && RunsTo(m, pause, s0, c0, data, n, s1, c1, false)
    requires m.step(s1, data[n..]) == Did(s2, k) && !m.ends(s1)
    ensures var c2 := c1 + m.calls(s1, s2); RunsTo(m, pause, s0, c0, data, n + k, s2, c2, Pauses(pause, c1, c2))
  {
    var r1 := Run(m, pause, s1, c1, data[n..]);
    assert data[n..][k..] == data[n + k..];
  }

  /** A run whose next step is stuck, or ends it, is over. */
  lemma {:induction false} RunsToEnd<S(!new)>(m: Machine<S>, pause: nat -> bool, s0: S, c0: nat, data: string, n: nat,
      s1: S, c1: nat)
    requires Sound(m) && m.ok(s0) && RunsTo(m, pause, s0, c0, data, n, s1, c1, false)
    ensures m.step(s1, data[n..]).Stuck? ==> Run(m, pause, s0, c0, data) == RunResult(s1, n, c1, false)
    ensures m.step(s1, data[n..]).Did? && m.ends(s1) ==>
      var Did(s2, k) := m.step(s1, data[n..]);
      var c2 := c1 + m.calls(s1, s2);
      Run(m, pause, s0, c0, data) == RunResult(s2, n + k, c2, Pauses(pause, c1, c2))
  {
  }

  // ---------------------------------------------------------------------------------------
  // What every step keeps, every run keeps
  // ---------------------------------------------------------------------------------------

  ghost predicate Kept<S(!new)>(m: Machine<S>, inv: S -> bool) {
    forall s, data :: m.ok(s) && inv(s) && m.step(s, data).Did? ==> inv(m.step(s, data).s)
  }

  lemma {:induction false} RunKeeps<S(!new)>(m: Machine<S>, inv: S -> bool, pause: nat -> bool, s: S, calls: nat,
      data: string)
    requires Sound(m) && Kept(m, inv) && m.ok(s) && inv(s)
    ensures inv(Run(m, pause, s, calls, data).s)
    decreases |data|, m.rank(s)
  {
    match m.step(s, data)
    case Stuck =>
    case Did(s', n) => RunKeeps(m, inv, pause, s', calls + m.calls(s, s'), data[n..]);
  }

  lemma {:induction false} DriveKeeps<S(!new)>(m: Machine<S>, inv: S -> bool, pause: nat -> bool, s: S, calls: nat,
      data: string)
    requires Sound(m) && Kept(m, inv) && m.ok(s) && inv(s)
    ensures inv(Drive(m, pause, s, calls, data).s)
    decreases |data|, m.rank(s)
  {
    var r := Run(m, pause, s, calls, data);
    RunKeeps(m, inv, pause, s, calls, data);
    if !(r.n == 0 && m.rank(r.s) >= m.rank(s)) {
      DriveKeeps(m, inv, pause, r.s, r.calls, data[r.n..]);
    }
  }

  lemma {:induction false} FeedKeeps<S(!new)>(m: Machine<S>, inv: S -> bool, pause: nat -> bool, d: Driven<S>,
      pieces: seq<string>)
    requires Sound(m) && Kept(m, inv) && m.ok(d.s) && inv(d.s)
    ensures inv(Feed(m, pause, d, pieces).s)
    decreases |pieces|
  {
    if pieces != [] {
      DriveKeeps(m, inv, pause, d.s, d.calls, d.rest + pieces[0]);
      FeedKeeps(m, inv, pause, Drive(m, pause, d.s, d.calls, d.rest + pieces[0]), pieces[1..]);
    }
  }

  // ---------------------------------------------------------------------------------------
  // Pausing
  // ---------------------------------------------------------------------------------------

  /** A run does some of the steps and leaves the rest to be done from where it stopped. */
  lemma {:induction false} RunIsPrefix<S(!new)>(m: Machine<S>, pause: nat -> bool, s: S, calls: nat, data: string)
    requires Sound(m) && m.ok(s)
    ensures var r := Run(m, pause, s, calls, data);
      Exhaust(m, s, data) == Exhaust(m, r.s, data[r.n..])
    decreases |data|, m.rank(s)
  {
    var whole := Run(m, pause, s, calls, data);
    match m.step(s, data)
    case Stuck => assert whole.s == s && data[whole.n..] == data;
    case Did(s', n) => {
      assert Exhaust(m, s, data) == Exhaust(m, s', data[n..]);
      var calls' := calls + m.calls(s, s');
      if m.ends(s) || Pauses(pause, calls, calls') {
        assert whole.s == s' && whole.n == n;
      } else {
        var r := Run(m, pause, s', calls', data[n..]);
        assert whole.s == r.s && whole.n == n + r.n;
        RunIsPrefix(m, pause, s', calls', data[n..]);
        assert data[n..][r.n..] == data[whole.n..];
      }
    }
  }

  /** Pausing in any hooks, each pause followed by a resume and a further run, changes nothing. */
  lemma {:induction false} PauseInvariance<S(!new)>(m: Machine<S>, pause: nat -> bool, s: S, calls: nat, data: string)
    requires Sound(m) && m.ok(s)
    ensures var d := Drive(m, pause, s, calls, data); Outcome(d.s, d.rest) == Exhaust(m, s, data)
    decreases |data|, m.rank(s)
  {
    var r := Run(m, pause, s, calls, data);
    RunIsPrefix(m, pause, s, calls, data);
    if !(r.n == 0 && m.rank(r.s) >= m.rank(s)) {
      PauseInvariance(m, pause, r.s, r.calls, data[r.n..]);
    }
  }

  // ---------------------------------------------------------------------------------------
  // Cutting
  // ---------------------------------------------------------------------------------------

  /** No step of the uncut stream is on an edge. */
  ghost predicate EdgeFree<S(!new)>(m: Machine<S>, s: S, data: string)
    requires Sound(m) && m.ok(s)
    decreases |data|, m.rank(s)
  {
    && !m.edge(s, data)
    && (m.step(s, data).Did? ==> var r := m.step(s, data); EdgeFree(m, r.s, data[r.n..]))
  }

  /** Names a cut, so that `Extends` is used exactly where a proof says. */
  ghost predicate CutAt<S>(s: S, a: string, b: string) {
    true
  }

  /**
   Seeing more bytes does not change a step already done, except that it may have used all there
   was and, seeing more, would have used more: then going on does the same.
   */
  ghost predicate Extends<S(!new)>(m: Machine<S>) {
    forall s, a, b {:trigger CutAt(s, a, b)} :: CutAt(s, a, b) && m.ok(s) && m.step(s, a).Did? && !m.edge(s, a + b) ==>
      var r := m.step(s, a);
      || m.step(s, a + b) == r
      || (&& r.n == |a| && m.step(s, a + b).Did?
          && var r2 := m.step(s, a + b);
             r2.n >= r.n && m.step(r.s, b) == Did(r2.s, r2.n - r.n) && !m.edge(r.s, b))
  }

  lemma {:induction false} ExhaustStep<S(!new)>(m: Machine<S>, s: S, data: string, s': S, n: nat)
    requires Sound(m) && m.ok(s) && m.step(s, data) == Did(s', n)
    ensures m.ok(s') && n <= |data| && m.total(s') == m.total(s) + n
    ensures Exhaust(m, s, data) == Exhaust(m, s', data[n..])
    ensures EdgeFree(m, s, data) <==> !m.edge(s, data) && EdgeFree(m, s', data[n..])
  {
  }

  /** The step that used everything and would have used more. */
  lemma {:induction false} UsedMore<S(!new)>(m: Machine<S>, s: S, a: string, b: string, s': S, r2: Stepped<S>)
    requires Sound(m) && m.ok(s) && m.step(s, a) == Did(s', |a|) && m.step(s, a + b) == r2 && r2.Did?
    requires r2.n >= |a| && m.step(s', b) == Did(r2.s, r2.n - |a|) && !m.edge(s', b) && EdgeFree(m, s, a + b)
    ensures m.ok(s') && Exhaust(m, s, a + b) == Exhaust(m, s', b) && EdgeFree(m, s', b)
  {
    ExhaustStep(m, s, a, s', |a|);
    ExhaustStep(m, s, a + b, r2.s, r2.n);
    ExhaustStep(m, s', b, r2.s, r2.n - |a|);
    assert (a + b)[r2.n..] == b[r2.n - |a|..];
  }

  /** Cutting once: the first part, then its unused tail with the second part, is the whole. */
  lemma {:induction false} CutOnce<S(!new)>(m: Machine<S>, s: S, a: string, b: string)
    requires Sound(m) && Extends(m) && m.ok(s) && EdgeFree(m, s, a + b)
    ensures var o := Exhaust(m, s, a);
      Exhaust(m, s, a + b) == Exhaust(m, o.s, o.rest + b) && EdgeFree(m, o.s, o.rest + b)
    decreases |a|, m.rank(s)
  {
    match m.step(s, a)
    case Stuck =>
    case Did(s', n) => {
      var r2 := m.step(s, a + b);
      assert CutAt(s, a, b);
      ExhaustStep(m, s, a, s', n);
      if r2 == Did(s', n) {
        assert (a + b)[n..] == a[n..] + b;
        ExhaustStep(m, s, a + b, s', n);
      } else {
        assert a[n..] + b == b;
        UsedMore(m, s, a, b, s', r2);
      }
      CutOnce(m, s', a[n..], b);
    }
  }

  /** A step done alive and off the edge is not on an edge when more bytes are seen. */
  ghost predicate Settled<S(!new)>(m: Machine<S>) {
    forall s, a, b {:trigger CutAt(s, a, b)} ::
      CutAt(s, a, b) && m.ok(s) && m.step(s, a).Did? && !m.dead(m.step(s, a).s) && !m.edge(s, a) ==> !m.edge(s, a + b)
  }

  /** One stream after another: off the edge both, then off the edge together, and the second goes on from the first. */
  lemma {:induction false} EdgeFreeJoins<S(!new)>(m: Machine<S>, s: S, a: string, b: string)
    requires Sound(m) && Extends(m) && Settled(m) && (forall s, data :: m.dead(s) ==> m.step(s, data).Stuck?)
    requires m.ok(s) && EdgeFree(m, s, a)
    requires var o := Exhaust(m, s, a); !m.dead(o.s) && o.rest == "" && EdgeFree(m, o.s, b)
    ensures EdgeFree(m, s, a + b)
    decreases |a|, m.rank(s)
  {
    match m.step(s, a)
    case Stuck => assert a + b == b;
    case Did(s', n) => {
      var r2 := m.step(s, a + b);
      assert CutAt(s, a, b);
      ExhaustStep(m, s, a, s', n);
      assert !m.dead(s');
      EdgeFreeJoins(m, s', a[n..], b);
      if r2 == Did(s', n) {
        assert (a + b)[n..] == a[n..] + b;
        ExhaustStep(m, s, a + b, s', n);
      } else {
        assert a[n..] + b == b;
        ExhaustStep(m, s', b, r2.s, r2.n - n);
        ExhaustStep(m, s, a + b, r2.s, r2.n);
        assert (a + b)[r2.n..] == b[r2.n - n..];
      }
    }
  }

  lemma {:induction false} StreamsJoin<S(!new)>(m: Machine<S>, s: S, a: string, b: string)
    requires Sound(m) && Extends(m) && Settled(m) && (forall s, data :: m.dead(s) ==> m.step(s, data).Stuck?)
    requires m.ok(s) && EdgeFree(m, s, a)
    requires var o := Exhaust(m, s, a); !m.dead(o.s) && o.rest == "" && EdgeFree(m, o.s, b)
    ensures EdgeFree(m, s, a + b) && Exhaust(m, s, a + b) == Exhaust(m, Exhaust(m, s, a).s, b)
  {
    EdgeFreeJoins(m, s, a, b);
    CutOnce(m, s, a, b);
    assert "" + b == b;
  }

  /** Cutting into any pieces, and pausing anywhere, is the whole presented at once. */
  lemma {:induction false} CutInvariance<S(!new)>(m: Machine<S>, pause: nat -> bool, d: Driven<S>, pieces: seq<string>)
    requires Sound(m) && Extends(m) && m.ok(d.s) && m.step(d.s, d.rest).Stuck?
    requires EdgeFree(m, d.s, d.rest + Concat(pieces))
    ensures var d' := Feed(m, pause, d, pieces);
      Outcome(d'.s, d'.rest) == Exhaust(m, d.s, d.rest + Concat(pieces))
    decreases |pieces|
  {
    if pieces == [] {
      assert d.rest + [] == d.rest;
    } else {
      var a, b := d.rest + pieces[0], Concat(pieces[1..]);
      assert d.rest + Concat(pieces) == a + b;
      CutOnce(m, d.s, a, b);
      PauseInvariance(m, pause, d.s, d.calls, a);
      CutInvariance(m, pause, Drive(m, pause, d.s, d.calls, a), pieces[1..]);
    }
  }

  /** Two pieces: the first exhausted, then its tail with the second. */
  lemma {:induction false} TwoPieces<S(!new)>(m: Machine<S>, pause: nat -> bool, s: S, calls: nat, a: string, b: string)
    requires Sound(m) && m.ok(s)
    ensures Concat([a, b]) == a + b
    ensures var o := Exhaust(m, s, a);
      Feed(m, pause, Driven(s, "", calls), [a, b]).s == Exhaust(m, o.s, o.rest + b).s
  {
    assert "" + a == a;
    var d1 := Drive(m, pause, s, calls, a);
    PauseInvariance(m, pause, s, calls, a);
    var d2 := Drive(m, pause, d1.s, d1.calls, d1.rest + b);
    PauseInvariance(m, pause, d1.s, d1.calls, d1.rest + b);
    assert [a, b][1..] == [b] && [b][1..] == [];
    assert Concat([b]) == b + Concat([b][1..]) == b;
    assert Feed(m, pause, d2, []) == d2;
    assert Feed(m, pause, d1, [b]) == Feed(m, pause, d2, [b][1..]);
    assert Feed(m, pause, Driven(s, "", calls), [a, b]) == Feed(m, pause, d1, [a, b][1..]);
  }

  // ---------------------------------------------------------------------------------------
  // Edges are where a cut shows
  // ---------------------------------------------------------------------------------------

  /** A cut that kills a machine the whole stream moves on. */
  ghost predicate DiesEarly<S>(m: Machine<S>, r: Stepped<S>, whole: Stepped<S>) {
    r.Did? && whole.Did? && r.n < whole.n && m.dead(r.s)
  }

  /** A cut after which the machine dies where the whole would have died, but in another state. */
  ghost predicate DiesElsewhere<S>(m: Machine<S>, r: Stepped<S>, k: nat, rest: string, whole: Stepped<S>) {
    && r.Did? && r.n == k && m.step(r.s, "").Stuck?
    && whole.Did? && m.dead(whole.s)
    && m.step(r.s, rest).Did? && m.dead(m.step(r.s, rest).s) && m.step(r.s, rest).s != whole.s
  }

  /** A dead machine stays stuck, and an edge has a cut that shows. */
  ghost predicate EdgesShow<S(!new)>(m: Machine<S>) {
    && (forall s, data :: m.dead(s) ==> m.step(s, data).Stuck? && !m.edge(s, data))
    && (forall s, data :: m.ok(s) && m.edge(s, data) ==>
          var k := m.cut(s, data);
          && 0 < k <= |data|
          && var r, whole := m.step(s, data[..k]), m.step(s, data);
             DiesEarly(m, r, whole) || DiesElsewhere(m, r, k, data[k..], whole))
  }

  /** A step that leaves the machine alive depends only on the bytes it uses and one more. */
  ghost predicate Local<S(!new)>(m: Machine<S>) {
    forall s, a, b {:trigger CutAt(s, a, b)} ::
      CutAt(s, a, b) && m.ok(s) && m.step(s, a + b).Did? && m.step(s, a + b).n < |a| && !m.dead(m.step(s, a + b).s) ==>
        m.step(s, a) == m.step(s, a + b)
  }

  lemma {:induction false} ExhaustTotal<S(!new)>(m: Machine<S>, s: S, data: string)
    requires Sound(m) && m.ok(s)
    ensures m.total(Exhaust(m, s, data).s) >= m.total(s)
    decreases |data|, m.rank(s)
  {
    match m.step(s, data)
    case Stuck =>
    case Did(s', n) => ExhaustTotal(m, s', data[n..]);
  }

  lemma {:induction false} EdgeHere<S(!new)>(m: Machine<S>, s: S, data: string)
    requires Sound(m) && EdgesShow(m) && m.ok(s) && m.edge(s, data)
    ensures var k := m.cut(s, data);
      && 0 < k <= |data|
      && var o := Exhaust(m, s, data[..k]);
         Exhaust(m, o.s, o.rest + data[k..]).s != Exhaust(m, s, data).s
  {
    var k := m.cut(s, data);
    var r, whole := m.step(s, data[..k]), m.step(s, data);
    ExhaustStep(m, s, data[..k], r.s, r.n);
    ExhaustStep(m, s, data, whole.s, whole.n);
    if DiesEarly(m, r, whole) {
      DeadStays(m, r.s, data[..k][r.n..]);
      DeadStays(m, r.s, data[..k][r.n..] + data[k..]);
      ExhaustTotal(m, whole.s, data[whole.n..]);
    } else {
      DeadStays(m, whole.s, data[whole.n..]);
      DiesThere(m, r.s, data[k..]);
      assert data[..k][r.n..] == "" && "" + data[k..] == data[k..];
    }
  }

  lemma {:induction false} DeadStays<S(!new)>(m: Machine<S>, s: S, data: string)
    requires Sound(m) && EdgesShow(m) && m.ok(s) && m.dead(s)
    ensures Exhaust(m, s, data) == Outcome(s, data)
  {
  }

  lemma {:induction false} DiesThere<S(!new)>(m: Machine<S>, s: S, data: string)
    requires Sound(m) && EdgesShow(m) && m.ok(s) && m.step(s, "").Stuck?
    requires m.step(s, data).Did? && m.dead(m.step(s, data).s)
    ensures Exhaust(m, s, "") == Outcome(s, "") && Exhaust(m, s, data).s == m.step(s, data).s
  {
    var r := m.step(s, data);
    ExhaustStep(m, s, data, r.s, r.n);
    DeadStays(m, r.s, data[r.n..]);
  }

  /** A stream with an edge has a cut after which its end is not the end of the whole. */
  lemma {:induction false} EdgeShows<S(!new)>(m: Machine<S>, s: S, data: string) returns (k: nat)
    requires Sound(m) && EdgesShow(m) && Local(m) && m.ok(s) && !EdgeFree(m, s, data)
    ensures 0 < k <= |data|
    ensures var o := Exhaust(m, s, data[..k]); Exhaust(m, o.s, o.rest + data[k..]).s != Exhaust(m, s, data).s
    decreases |data|, m.rank(s)
  {
    if m.edge(s, data) {
      EdgeHere(m, s, data);
      k := m.cut(s, data);
    } else {
      var r := m.step(s, data);
      assert r.Did? && r.n <= |data| && m.ok(r.s) && !EdgeFree(m, r.s, data[r.n..]);
      hide Exhaust, EdgeFree, EdgesShow, Sound, Local;
      EdgeAlive(m, r.s, data[r.n..]);
      ExhaustStep(m, s, data, r.s, r.n);
      var k' := EdgeShows(m, r.s, data[r.n..]);
      k := r.n + k';
      LocalStep(m, s, data, k);
      ExhaustStep(m, s, data[..k], r.s, r.n);
      assert data[..k][r.n..] == data[r.n..][..k'] && data[k..] == data[r.n..][k'..];
    }
  }

  lemma {:induction false} EdgeAlive<S(!new)>(m: Machine<S>, s: S, data: string)
    requires Sound(m) && EdgesShow(m) && m.ok(s) && !EdgeFree(m, s, data)
    ensures !m.dead(s)
  {
  }

  lemma {:induction false} LocalStep<S(!new)>(m: Machine<S>, s: S, data: string, k: nat)
    requires Local(m) && m.ok(s) && k <= |data|
    requires var r := m.step(s, data); r.Did? && r.n < k && !m.dead(r.s)
    ensures m.step(s, data[..k]) == m.step(s, data)
  {
    assert data[..k] + data[k..] == data && CutAt(s, data[..k], data[k..]);
  }

  lemma {:induction false} EdgeShowsInPieces<S(!new)>(m: Machine<S>, pause: nat -> bool, s: S, calls: nat, data: string)
    returns (pieces: seq<string>)
    requires Sound(m) && EdgesShow(m) && Local(m) && m.ok(s) && !EdgeFree(m, s, data)
    ensures Concat(pieces) == data
    ensures Feed(m, pause, Driven(s, "", calls), pieces).s != Exhaust(m, s, data).s
  {
    hide Sound, EdgesShow, Local, EdgeFree, Exhaust, Feed;
    var k := EdgeShows(m, s, data);
    pieces := [data[..k], data[k..]];
    assert data[..k] + data[k..] == data;
    TwoPieces(m, pause, s, calls, data[..k], data[k..]);
  }

  /** Everything the caller can see in the end is the same, however the stream was cut and runs were paused. */
  ghost predicate CutsDoNotShow<S(!new)>(m: Machine<S>, s: S, data: string)
    requires Sound(m) && m.ok(s)
  {
    forall pause: nat -> bool, calls: nat, pieces: seq<string> :: Concat(pieces) == data ==>
      var d := Feed(m, pause, Driven(s, "", calls), pieces); Outcome(d.s, d.rest) == Exhaust(m, s, data)
  }

  /** Cuts and pauses show exactly on streams with an edge. */
  lemma {:induction false} CutsShowExactlyEdges<S(!new)>(m: Machine<S>, s: S, data: string)
    requires Sound(m) && Extends(m) && EdgesShow(m) && Local(m) && m.ok(s) && m.step(s, "").Stuck?
    ensures CutsDoNotShow(m, s, data) <==> EdgeFree(m, s, data)
  {
    if EdgeFree(m, s, data) {
      forall pause: nat -> bool, calls: nat, pieces: seq<string> | Concat(pieces) == data
        ensures var d := Feed(m, pause, Driven(s, "", calls), pieces); Outcome(d.s, d.rest) == Exhaust(m, s, data)
      {
        assert "" + data == data;
        CutInvariance(m, pause, Driven(s, "", calls), pieces);
      }
    } else {
      var pause := (_: nat) => false;
      var pieces := EdgeShowsInPieces(m, pause, s, 0, data);
      var d := Feed(m, pause, Driven(s, "", 0), pieces);
      assert Outcome(d.s, d.rest) != Exhaust(m, s, data);
    }
  }
}
