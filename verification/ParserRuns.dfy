/**
 The parser as an incremental machine: neither the cutting of its stream nor pausing in its hooks
 can be seen in the trace, the errors or the final state, exactly when no step of the stream is on
 an edge: a line at the line limit, or a body hook that fails.
 */
module ParserRuns {
  import opened Prelude
  import opened Text
  import opened Incremental
  import opened ParserSpec

  /** The next step takes a line whose length is checked against the limit. */
  predicate TakesLine(p: Parser) {
    p.phase.HeadLine? || p.phase.Headers? || p.phase.Trailers? || (p.phase.Body? && p.body.Chunked? && p.chunk.Size?)
  }

  /** A line of exactly the longest allowed length that ends in CRLF: cut between CR and LF it looks too long. */
  predicate LineEdge(env: Env, p: Parser, data: string) {
    && TakesLine(p)
    && env.maxLine > 0
    && IndexOf(data, '\n') == env.maxLine + 1 < |data|
    && data[env.maxLine] == '\r'
  }

  /** The body hook fails when handed x. */
  predicate Fails(env: Env, p: Parser, x: string) {
    env.verdict(Append(p.trace, BodyPiece(x))).Fail?
  }

  /**
   A body piece whose hook fails at a part of it, or at all of it with the bytes still to come being
   counted: they are counted down piece by piece, and not for the piece that failed.
   */
  predicate PieceEdge(env: Env, p: Parser, x: string) {
    || (exists k :: 0 < k < |x| && Fails(env, p, x[..k]))
    || (!p.body.Identity? && |x| >= 2 && Fails(env, p, x))
  }

  /** Where a cut can be seen. */
  predicate OnEdge(env: Env, p: Parser, data: string) {
    LineEdge(env, p, data) || (InPiece(p) && PieceEdge(env, p, data[..PieceLength(p, |data|)]))
  }

  /** The shortest part of x from k on at which the hook fails; else a first byte by itself. */
  function FirstFailure(env: Env, p: Parser, x: string, k: nat): nat
    requires 0 < k
    decreases |x| - k
  {
    if k >= |x| then 1 else if Fails(env, p, x[..k]) then k else FirstFailure(env, p, x, k + 1)
  }

  /** A cut that shows an edge. */
  function EdgeCut(env: Env, p: Parser, data: string): nat {
    if LineEdge(env, p, data) then env.maxLine + 1 else FirstFailure(env, p, data[..PieceLength(p, |data|)], 1)
  }

  function ParserMachine(env: Env, head: LineTaker): Machine<Parser> {
    Machine(
      (p: Parser, data: string) => Step(env, head, p, data),
      (p: Parser) => WellFormed(p),
      (p: Parser) => Rank(p),
      (p: Parser) => p.total,
      (p: Parser) => p.phase.Complete?,
      (p: Parser, p': Parser) => Calls(p, p'),
      (p: Parser, data: string) => OnEdge(env, p, data),
      (p: Parser, data: string) => EdgeCut(env, p, data),
      (p: Parser) => p.phase.Failed?)
  }

  /** Body hooks do not ask to skip the body: the source takes that up to the end of the head only. */
  ghost predicate BodyHooksDoNotSkip(env: Env) {
    forall t: seq<Event> :: t != [] && t[|t| - 1].BodyPiece? ==> !env.verdict(t).SkipBody?
  }

  /** Body hooks let the message go on. */
  ghost predicate BodyHooksGo(env: Env) {
    forall t: seq<Event> :: t != [] && t[|t| - 1].BodyPiece? ==> env.verdict(t).Go?
  }

  // ---------------------------------------------------------------------------------------
  // Seeing more bytes
  // ---------------------------------------------------------------------------------------

  lemma {:induction false} TakeLineExtends(max: nat, a: string, b: string)
    requires !TakeLine(max, a).NoLine?
    requires max > 0 ==> !(IndexOf(a + b, '\n') == max + 1 < |a + b| && (a + b)[max] == '\r')
    ensures TakeLine(max, a + b) == TakeLine(max, a)
  {
    IndexOfExtends(a, b, '\n');
    var i := IndexOf(a, '\n');
    if i < |a| {
      assert (a + b)[..i] == a[..i];
      if i > 0 {
        assert (a + b)[..i - 1] == a[..i - 1];
      }
    }
  }

  /** Where a line is read whole, a cut inside what follows it does not matter. */
  lemma {:induction false} TakeLineLocal(max: nat, a: string, b: string)
    requires TakeLine(max, a + b).Line? && TakeLine(max, a + b).used <= |a|
    ensures TakeLine(max, a) == TakeLine(max, a + b)
  {
    var i := IndexOf(a + b, '\n');
    assert forall j :: 0 <= j < i ==> a[j] == (a + b)[j];
    assert a[i] == (a + b)[i];
    IndexOfUnique(a, '\n', i);
    assert (a + b)[..i] == a[..i];
    if i > 0 {
      assert (a + b)[..i - 1] == a[..i - 1];
    }
  }

  /** The end of a chunk is decided by its first two bytes. */
  lemma {:induction false} ChunkEndExtends(env: Env, p: Parser, a: string, b: string)
    requires a != [] && ChunkEndStep(env, p, a).Did?
    ensures ChunkEndStep(env, p, a + b) == ChunkEndStep(env, p, a)
  {
    IndexOfExtends(a, b, '\n');
    var i := IndexOf(a, '\n');
    if i < |a| {
      assert (a + b)[..i] == a[..i];
      if i > 0 {
        assert (a + b)[..i - 1] == a[..i - 1];
      }
    }
  }

  lemma {:induction false} AppendJoins(t: seq<Event>, x: string, y: string)
    ensures Append(Append(t, BodyPiece(x)), BodyPiece(y)) == Append(t, BodyPiece(x + y))
    ensures var t' := Append(t, BodyPiece(x)); t' != [] && t'[|t'| - 1].BodyPiece?
  {
    if t != [] && t[|t| - 1].BodyPiece? {
      var z := t[|t| - 1].text;
      assert z + (x + y) == z + x + y;
    }
  }

  /** The parser after handing out a body piece. */
  function AfterPiece(p: Parser, x: string): Parser {
    var p1 := p.(trace := Append(p.trace, BodyPiece(x)), total := p.total + |x|);
    if p.body.Identity? then p1
    else if |x| < p.contentLen then p1.(contentLen := p.contentLen - |x|)
    else if p.body.Length? then p1.(contentLen := 0, phase := Complete)
    else p1.(contentLen := 0, chunk := DataEnd)
  }

  /** The same with what the hook says. */
  function HandOut(env: Env, p: Parser, x: string): Parser {
    if Fails(env, p, x) then Failing(p.(trace := Append(p.trace, BodyPiece(x)), total := p.total + |x|), UserError)
    else AfterPiece(p, x)
  }

  /** The body hook of a step that hands out a piece. */
  lemma {:induction false} PieceCall(env: Env, p: Parser, x: string)
    requires BodyHooksDoNotSkip(env)
    ensures var p1 := p.(trace := Append(p.trace, BodyPiece(x)));
      Call(env, p, BodyPiece(x)) == if Fails(env, p, x) then Failing(p1, UserError) else p1
  {
    AppendJoins(p.trace, x, "");
  }

  lemma {:induction false} PieceStepIs(env: Env, head: LineTaker, p: Parser, data: string)
    requires BodyHooksDoNotSkip(env) && InPiece(p) && WellFormed(p) && data != []
    ensures var n := PieceLength(p, |data|);
      n <= |data| && Step(env, head, p, data) == Did(HandOut(env, p, data[..n]), n)
  {
    hide Call, Fails;
    PieceCall(env, p, data[..PieceLength(p, |data|)]);
  }

  /** A piece cut short and its continuation are the piece. */
  lemma {:induction false} PieceJoins(p: Parser, x: string, y: string)
    requires InPiece(p) && (p.body.Identity? || |x| < p.contentLen)
    ensures InPiece(AfterPiece(p, x)) && WellFormed(AfterPiece(p, x))
    ensures AfterPiece(AfterPiece(p, x), y) == AfterPiece(p, x + y)
  {
    AppendJoins(p.trace, x, y);
  }

  lemma {:induction false} FailsJoins(env: Env, p: Parser, x: string, y: string)
    ensures Fails(env, AfterPiece(p, x), y) == Fails(env, p, x + y)
  {
    AppendJoins(p.trace, x, y);
  }

  /** The rest of a piece that is not on an edge is not on one, and its hook's word is the piece's. */
  lemma {:induction false} RestOffEdge(env: Env, p: Parser, x: string, y: string)
    requires x != "" && y != "" && !PieceEdge(env, p, x + y)
    ensures !Fails(env, p, x) && !PieceEdge(env, AfterPiece(p, x), y)
  {
    hide Fails;
    assert (x + y)[..|x|] == x;
    FailsJoins(env, p, x, y);
    forall k | 0 < k < |y|
      ensures !Fails(env, AfterPiece(p, x), y[..k])
    {
      FailsJoins(env, p, x, y[..k]);
      assert (x + y)[..|x| + k] == x + y[..k];
    }
  }

  /** Handing out a piece in two parts, off the edge. */
  lemma {:induction false} HandOutJoins(env: Env, p: Parser, x: string, y: string)
    requires InPiece(p) && (p.body.Identity? || |x| < p.contentLen) && x != "" && y != "" && !PieceEdge(env, p, x + y)
    ensures HandOut(env, AfterPiece(p, x), y) == HandOut(env, p, x + y)
  {
    PieceJoins(p, x, y);
    FailsJoins(env, p, x, y);
    AppendJoins(p.trace, x, y);
  }

  /** The disjunction of Incremental.Extends, for the parser. */
  ghost predicate StepExtended(env: Env, head: LineTaker, p: Parser, a: string, b: string, r: Stepped<Parser>,
      r2: Stepped<Parser>) {
    || r2 == r
    || (r.Did? && r.n == |a| && r2.Did? && r2.n >= r.n && Step(env, head, r.s, b) == Did(r2.s, r2.n - r.n) &&
      !OnEdge(env, r.s, b))
  }

  /** More bytes would have made a longer piece: then it used everything, and going on completes it. */
  lemma {:induction false} PieceMore(p: Parser, a: string, b: string)
    requires InPiece(p) && WellFormed(p) && a != [] && PieceLength(p, |a|) != PieceLength(p, |a + b|)
    ensures var n2 := PieceLength(p, |a + b|);
      var p1 := AfterPiece(p, a);
      && PieceLength(p, |a|) == |a| < n2 && b != [] && (p.body.Identity? || |a| < p.contentLen)
      && InPiece(p1) && WellFormed(p1) && !TakesLine(p1) && PieceLength(p1, |b|) == n2 - |a| <= |b|
      && (a + b)[..n2] == a + b[..n2 - |a|]
  {
    var n2 := PieceLength(p, |a + b|);
    PieceJoins(p, a, b[..n2 - |a|]);
  }

  /** A longer piece, as the parser's steps do it. */
  lemma {:induction false} PieceGoesOn(env: Env, head: LineTaker, p: Parser, a: string, b: string)
    requires BodyHooksDoNotSkip(env) && InPiece(p) && WellFormed(p) && a != [] && !OnEdge(env, p, a + b)
    requires PieceLength(p, |a|) != PieceLength(p, |a + b|)
    ensures StepExtended(env, head, p, a, b, Step(env, head, p, a), Step(env, head, p, a + b))
  {
    hide Step, AfterPiece, WellFormed, Fails, PieceEdge;
    PieceStepIs(env, head, p, a);
    PieceStepIs(env, head, p, a + b);
    PieceMore(p, a, b);
    assert a[..|a|] == a;
    var y := b[..PieceLength(p, |a + b|) - |a|];
    RestOffEdge(env, p, a, y);
    HandOutJoins(env, p, a, y);
    PieceStepIs(env, head, AfterPiece(p, a), b);
  }

  lemma {:induction false} PieceExtends(env: Env, head: LineTaker, p: Parser, a: string, b: string)
    requires BodyHooksDoNotSkip(env) && InPiece(p) && WellFormed(p) && a != [] && !OnEdge(env, p, a + b)
    ensures StepExtended(env, head, p, a, b, Step(env, head, p, a), Step(env, head, p, a + b))
  {
    hide Step, HandOut, WellFormed, OnEdge;
    var n, n2 := PieceLength(p, |a|), PieceLength(p, |a + b|);
    if n == n2 {
      PieceStepIs(env, head, p, a);
      PieceStepIs(env, head, p, a + b);
      assert (a + b)[..n] == a[..n];
    } else {
      PieceGoesOn(env, head, p, a, b);
    }
  }

  lemma {:induction false} LineExtends(env: Env, head: LineTaker, p: Parser, a: string, b: string)
    requires TakesLine(p) && Step(env, head, p, a).Did? && !OnEdge(env, p, a + b)
    ensures Step(env, head, p, a + b) == Step(env, head, p, a)
  {
    TakeLineExtends(env.maxLine, a, b);
  }

  lemma {:induction false} StepExtends(env: Env, head: LineTaker, p: Parser, a: string, b: string)
    requires BodyHooksDoNotSkip(env) && WellFormed(p) && Step(env, head, p, a).Did? && !OnEdge(env, p, a + b)
    ensures StepExtended(env, head, p, a, b, Step(env, head, p, a), Step(env, head, p, a + b))
  {
    if TakesLine(p) {
      LineExtends(env, head, p, a, b);
    } else if InPiece(p) {
      PieceExtends(env, head, p, a, b);
    } else {
      OtherExtends(env, head, p, a, b);
    }
  }

  lemma {:induction false} OtherExtends(env: Env, head: LineTaker, p: Parser, a: string, b: string)
    requires WellFormed(p) && !TakesLine(p) && !InPiece(p) && Step(env, head, p, a).Did?
    ensures Step(env, head, p, a + b) == Step(env, head, p, a)
  {
    if p.phase.Body? {
      ChunkEndExtends(env, p, a, b);
    }
  }

  // ---------------------------------------------------------------------------------------
  // Seeing fewer bytes
  // ---------------------------------------------------------------------------------------

  lemma {:induction false} LineLocal(env: Env, head: LineTaker, p: Parser, a: string, b: string)
    requires TakesLine(p) && Step(env, head, p, a + b).Did? && Step(env, head, p, a + b).n < |a| &&
      !Step(env, head, p, a + b).s.phase.Failed?
    ensures Step(env, head, p, a) == Step(env, head, p, a + b)
  {
    TakeLineLocal(env.maxLine, a, b);
  }

  lemma {:induction false} OtherLocal(env: Env, head: LineTaker, p: Parser, a: string, b: string)
    requires WellFormed(p) && !TakesLine(p) && !InPiece(p)
    requires Step(env, head, p, a + b).Did? && Step(env, head, p, a + b).n < |a| &&
      !Step(env, head, p, a + b).s.phase.Failed?
    ensures Step(env, head, p, a) == Step(env, head, p, a + b)
  {
    assert (a + b)[0] == a[0];
    if p.phase.Body? {
      TakeLineLocal(env.maxLine, a, b);
    }
  }

  lemma {:induction false} PieceLocal(env: Env, head: LineTaker, p: Parser, a: string, b: string)
    requires BodyHooksDoNotSkip(env) && InPiece(p) && WellFormed(p) && a != []
    requires Step(env, head, p, a + b).Did? && Step(env, head, p, a + b).n < |a|
    ensures Step(env, head, p, a) == Step(env, head, p, a + b)
  {
    PieceStepIs(env, head, p, a);
    PieceStepIs(env, head, p, a + b);
    var n := PieceLength(p, |a + b|);
    assert (a + b)[..n] == a[..n];
  }

  // ---------------------------------------------------------------------------------------
  // The parser is such a machine
  // ---------------------------------------------------------------------------------------

  lemma {:induction false} MachineSound(env: Env, head: LineTaker)
    requires HeadOk(head)
    ensures Sound(ParserMachine(env, head))
  {
    var m := ParserMachine(env, head);
    forall p, data | m.ok(p) && m.step(p, data).Did?
      ensures var r := m.step(p, data);
        r.n <= |data| && m.ok(r.s) && (r.n == 0 ==> m.rank(r.s) < m.rank(p)) && m.total(r.s) == m.total(p) + r.n
    {
      StepProgress(env, head, p, data);
    }
  }

  lemma {:induction false} MachineExtends(env: Env, head: LineTaker)
    requires BodyHooksDoNotSkip(env)
    ensures Extends(ParserMachine(env, head))
  {
    var m := ParserMachine(env, head);
    forall p, a, b | CutAt(p, a, b) && m.ok(p) && m.step(p, a).Did? && !m.edge(p, a + b)
      ensures var r := m.step(p, a);
        || m.step(p, a + b) == r
        || (&& r.n == |a| && m.step(p, a + b).Did?
            && var r2 := m.step(p, a + b);
               r2.n >= r.n && m.step(r.s, b) == Did(r2.s, r2.n - r.n) && !m.edge(r.s, b))
    {
      StepExtends(env, head, p, a, b);
    }
  }

  lemma {:induction false} MachineLocal(env: Env, head: LineTaker)
    requires BodyHooksDoNotSkip(env)
    ensures Local(ParserMachine(env, head))
  {
    var m := ParserMachine(env, head);
    forall p, a, b | CutAt(p, a, b) && m.ok(p) && m.step(p, a + b).Did? && m.step(p, a + b).n < |a| &&
      !m.dead(m.step(p, a + b).s)
      ensures m.step(p, a) == m.step(p, a + b)
    {
      if TakesLine(p) {
        LineLocal(env, head, p, a, b);
      } else if InPiece(p) {
        PieceLocal(env, head, p, a, b);
      } else {
        OtherLocal(env, head, p, a, b);
      }
    }
  }

  /** On an edge, the line is taken whole and refused when cut after its CR. */
  lemma {:induction false} EdgeStep(env: Env, head: LineTaker, p: Parser, data: string)
    requires LineEdge(env, p, data)
    ensures Step(env, head, p, data).Did? && Step(env, head, p, data).n == env.maxLine + 2
    ensures var r := Step(env, head, p, data[..env.maxLine + 1]);
      r.Did? && r.n == 0 && r.s.phase.Failed? && r.s.error.TooBig?
  {
    var cut := data[..env.maxLine + 1];
    assert forall j :: 0 <= j < |cut| ==> cut[j] != '\n';
    IndexOfUnique(cut, '\n', |cut|);
    assert TakeLine(env.maxLine, data) == Line(data[..env.maxLine], env.maxLine + 2);
  }

  lemma {:induction false} FirstFailureIs(env: Env, p: Parser, x: string, k: nat)
    requires 0 < k
    ensures var c := FirstFailure(env, p, x, k);
      if exists j :: k <= j < |x| && Fails(env, p, x[..j]) then k <= c < |x| && Fails(env, p, x[..c]) else c == 1
    decreases |x| - k
  {
    hide Fails;
    if k < |x| && !Fails(env, p, x[..k]) {
      FirstFailureIs(env, p, x, k + 1);
    }
  }

  /** A hook that fails at part of a piece: cut there, the parser fails there. */
  lemma {:induction false} EarlyFailure(env: Env, head: LineTaker, p: Parser, data: string, k: nat)
    requires BodyHooksDoNotSkip(env) && InPiece(p) && WellFormed(p) && 0 < k < PieceLength(p, |data|) &&
      Fails(env, p, data[..k])
    ensures DiesEarly(ParserMachine(env, head), Step(env, head, p, data[..k]), Step(env, head, p, data))
  {
    hide Step, Fails, WellFormed;
    PieceStepIs(env, head, p, data);
    PieceStepIs(env, head, p, data[..k]);
    assert data[..k][..k] == data[..k];
  }

  /** A hook that fails at a whole counted piece: cut before, fewer bytes are left to come. */
  lemma {:induction false} LateFailure(env: Env, head: LineTaker, p: Parser, data: string)
    requires BodyHooksDoNotSkip(env) && InPiece(p) && WellFormed(p) && !p.body.Identity?
    requires var n := PieceLength(p, |data|); n >= 2 && Fails(env, p, data[..n]) && !Fails(env, p, data[..1])
    ensures DiesElsewhere(ParserMachine(env, head), Step(env, head, p, data[..1]), 1, data[1..],
      Step(env, head, p, data))
  {
    hide Step, Fails, WellFormed, HandOut, AfterPiece;
    var n := PieceLength(p, |data|);
    var a, b := data[..1], data[1..];
    assert a + b == data;
    PieceStepIs(env, head, p, data);
    PieceStepIs(env, head, p, a);
    assert a[..1] == a;
    PieceMore(p, a, b);
    PieceStepIs(env, head, AfterPiece(p, a), b);
    LateCounts(env, p, a, b[..n - 1]);
    AtRest(env, head, AfterPiece(p, a));
  }

  lemma {:induction false} LateCounts(env: Env, p: Parser, a: string, y: string)
    requires InPiece(p) && !p.body.Identity? && 0 < |a| < p.contentLen && !Fails(env, p, a) && Fails(env, p, a + y)
    ensures HandOut(env, p, a) == AfterPiece(p, a) && HandOut(env, p, a + y).phase.Failed?
    ensures var late := HandOut(env, AfterPiece(p, a), y); late.phase.Failed? && late != HandOut(env, p, a + y)
    ensures !AfterPiece(p, a).phase.Complete?
  {
    hide Fails;
    FailsJoins(env, p, a, y);
    assert HandOut(env, AfterPiece(p, a), y).contentLen == p.contentLen - |a|;
  }

  lemma {:induction false} PieceEdgeShows(env: Env, head: LineTaker, p: Parser, data: string)
    requires BodyHooksDoNotSkip(env) && InPiece(p) && WellFormed(p) && PieceEdge(env, p, data[..PieceLength(p, |data|)])
    ensures var k := EdgeCut(env, p, data);
      && 0 < k <= |data|
      && var r, whole := Step(env, head, p, data[..k]), Step(env, head, p, data);
         DiesEarly(ParserMachine(env, head), r, whole) ||
           DiesElsewhere(ParserMachine(env, head), r, k, data[k..], whole)
  {
    hide Step, Fails, WellFormed, DiesEarly, DiesElsewhere;
    var n := PieceLength(p, |data|);
    var x := data[..n];
    FirstFailureIs(env, p, x, 1);
    if k :| 0 < k < |x| && Fails(env, p, x[..k]) {
      var c := EdgeCut(env, p, data);
      assert x[..c] == data[..c];
      EarlyFailure(env, head, p, data, c);
    } else {
      assert x[..1] == data[..1];
      LateFailure(env, head, p, data);
    }
  }

  lemma {:induction false} MachineEdges(env: Env, head: LineTaker)
    requires BodyHooksDoNotSkip(env)
    ensures EdgesShow(ParserMachine(env, head))
  {
    hide Step;
    var m := ParserMachine(env, head);
    forall p, data | m.ok(p) && m.edge(p, data)
      ensures var k := m.cut(p, data);
        && 0 < k <= |data|
        && var r, whole := m.step(p, data[..k]), m.step(p, data);
           DiesEarly(m, r, whole) || DiesElsewhere(m, r, k, data[k..], whole)
    {
      if LineEdge(env, p, data) {
        EdgeStep(env, head, p, data);
      } else {
        PieceEdgeShows(env, head, p, data);
      }
    }
    forall p, data | m.dead(p)
      ensures m.step(p, data).Stuck? && !m.edge(p, data)
    {
      FailedIsStuck(env, head, p, data);
    }
  }

  lemma {:induction false} FailedIsStuck(env: Env, head: LineTaker, p: Parser, data: string)
    requires p.phase.Failed?
    ensures Step(env, head, p, data).Stuck?
  {
  }

  // ---------------------------------------------------------------------------------------
  // Main results
  // ---------------------------------------------------------------------------------------

  /** Between messages and inside one, the parser waits for bytes. */
  lemma {:induction false} AtRest(env: Env, head: LineTaker, p: Parser)
    requires !p.phase.Complete?
    ensures Step(env, head, p, "").Stuck?
  {
  }

  /**
   Split and pause invariance. For every stream and every way of cutting it into pieces with the
   unconsumed tail presented again, and for every way of pausing and resuming in the hooks, the
   trace with adjacent body pieces joined, the error and the whole final state, the totals and the
   bytes left over are those of presenting it at once: exactly when no line of the stream has the
   largest allowed length and ends in CRLF, and no body hook fails at part of a piece, or at the whole
   of a counted piece of two bytes or more. Lines may mean anything.
   */
  lemma {:induction false} SplitAndPauseInvariance(env: Env, head: LineTaker, p: Parser, data: string)
    requires HeadOk(head) && BodyHooksDoNotSkip(env) && WellFormed(p) && !p.phase.Complete?
    ensures Sound(ParserMachine(env, head))
    ensures CutsDoNotShow(ParserMachine(env, head), p, data) <==> EdgeFree(ParserMachine(env, head), p, data)
  {
    MachineSound(env, head);
    MachineExtends(env, head);
    MachineLocal(env, head);
    MachineEdges(env, head);
    AtRest(env, head, p);
    hide Step, Sound, Extends, Local, EdgesShow, CutsDoNotShow, EdgeFree, WellFormed;
    CutsShowExactlyEdges(ParserMachine(env, head), p, data);
  }

  /** The same for the parser's own lines, from a fresh parser on. */
  lemma {:induction false} ParserSplitInvariance(env: Env, data: string)
    requires BodyHooksDoNotSkip(env)
    ensures var m := ParserMachine(env, Head(env));
      Sound(m) && m.ok(FRESH) && (CutsDoNotShow(m, FRESH, data) <==> EdgeFree(m, FRESH, data))
  {
    HeadIsOk(env);
    SplitAndPauseInvariance(env, Head(env), FRESH, data);
  }

  // ---------------------------------------------------------------------------------------
  // What a caller can check beforehand
  // ---------------------------------------------------------------------------------------

  /** Every stretch of the stream that a LF ends, its CR counted, fits the limit. */
  predicate LinesFit(max: nat, data: string)
    decreases |data|
  {
    var n := IndexOf(data, '\n');
    n == |data| || ((max == 0 || n <= max) && LinesFit(max, data[n + 1..]))
  }

  /** What is left after any number of bytes fits too: its first stretch is only shorter. */
  lemma {:induction false} TailFits(max: nat, data: string, k: nat)
    requires LinesFit(max, data) && k <= |data|
    ensures LinesFit(max, data[k..])
    decreases |data|
  {
    hide IndexOf;
    var n := IndexOf(data, '\n');
    if n == |data| {
      assert forall j :: 0 <= j < |data| - k ==> data[k..][j] == data[k + j];
      IndexOfUnique(data[k..], '\n', |data| - k);
    } else if k <= n {
      assert forall j :: 0 <= j < n - k ==> data[k..][j] == data[k + j];
      assert data[k..][n - k] == data[n];
      IndexOfUnique(data[k..], '\n', n - k);
      assert data[k..][n - k + 1..] == data[n + 1..];
    } else {
      TailFits(max, data[n + 1..], k - (n + 1));
      assert data[n + 1..][k - (n + 1)..] == data[k..];
    }
  }

  lemma {:induction false} GoingIsOffEdge(env: Env, p: Parser, x: string)
    requires BodyHooksGo(env)
    ensures !PieceEdge(env, p, x)
  {
  }

  /** A stream whose lines fit has no edge, whatever state the parser is in. */
  lemma {:induction false} FittingIsEdgeFree(env: Env, head: LineTaker, p: Parser, data: string)
    requires HeadOk(head) && BodyHooksGo(env) && WellFormed(p) && LinesFit(env.maxLine, data)
    ensures Sound(ParserMachine(env, head)) && EdgeFree(ParserMachine(env, head), p, data)
    decreases |data|, Rank(p)
  {
    MachineSound(env, head);
    hide Sound, WellFormed, PieceEdge, Step;
    GoingIsOffEdge(env, p, data[..PieceLength(p, |data|)]);
    StepProgress(env, head, p, data);
    var r := Step(env, head, p, data);
    if r.Did? {
      TailFits(env.maxLine, data, r.n);
      FittingIsEdgeFree(env, head, r.s, data[r.n..]);
    }
  }

  /** So for such a stream no cut and no pause ever shows. */
  lemma {:induction false} FittingStreamsSplit(env: Env, data: string)
    requires BodyHooksGo(env) && LinesFit(env.maxLine, data)
    ensures var m := ParserMachine(env, Head(env)); Sound(m) && m.ok(FRESH) && CutsDoNotShow(m, FRESH, data)
  {
    HeadIsOk(env);
    FittingIsEdgeFree(env, Head(env), FRESH, data);
    ParserSplitInvariance(env, data);
  }

  /** A line that was taken is not on an edge for more bytes that follow it. */
  lemma {:induction false} MachineSettled(env: Env, head: LineTaker)
    requires BodyHooksGo(env)
    ensures Settled(ParserMachine(env, head))
  {
    hide Step, PieceEdge;
    var m := ParserMachine(env, head);
    forall p, a, b | CutAt(p, a, b) && m.ok(p) && m.step(p, a).Did? && !m.dead(m.step(p, a).s) && !m.edge(p, a)
      ensures !m.edge(p, a + b)
    {
      LineSettled(env, head, p, a, b);
      GoingIsOffEdge(env, p, (a + b)[..PieceLength(p, |a + b|)]);
    }
  }

  lemma {:induction false} LineSettled(env: Env, head: LineTaker, p: Parser, a: string, b: string)
    requires Step(env, head, p, a).Did? && !Step(env, head, p, a).s.phase.Failed? && !LineEdge(env, p, a)
    ensures !LineEdge(env, p, a + b)
  {
    if TakesLine(p) {
      IndexOfExtends(a, b, '\n');
      assert env.maxLine < |a| ==> (a + b)[env.maxLine] == a[env.maxLine];
    }
  }

  /** Without a line limit every stream's lines fit. */
  lemma {:induction false} NoLimitFits(data: string)
    ensures LinesFit(0, data)
    decreases |data|
  {
    var n := IndexOf(data, '\n');
    if n < |data| {
      NoLimitFits(data[n + 1..]);
    }
  }
}
