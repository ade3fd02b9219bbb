/** What the chunk writer writes, the parser reads back, however the bytes are cut and runs are paused. */
module ChunkRoundTrip {
  import opened Prelude
  import opened Text
  import opened Incremental
  import opened ParserSpec
  import opened ParserRuns
  import opened ChunkWriter

  /** The parser expects the next chunk size. */
  predicate AtChunkSize(p: Parser) {
    p.phase.Body? && p.body.Chunked? && p.chunk.Size?
  }

  /** The line, counted with its CR, fits the limit. */
  predicate Fits(env: Env, text: string) {
    env.maxLine == 0 || |text| + 1 <= env.maxLine
  }

  lemma {:induction false} TakeCrlf(max: nat, text: string, rest: string)
    requires '\n' !in text && (max == 0 || |text| <= max)
    ensures TakeLine(max, text + CRLF + rest) == Line(text, |text| + 2)
    ensures IndexOf(text + CRLF + rest, '\n') == |text| + 1
  {
    var data := text + CRLF + rest;
    assert forall j :: 0 <= j < |text| ==> data[j] == text[j];
    assert data[|text|] == '\r' && data[|text| + 1] == '\n';
    IndexOfUnique(data, '\n', |text| + 1);
    assert data[..|text|] == text;
  }

  /** The parser reads the size the writer printed. */
  lemma {:induction false} SizeReadBack(n: nat)
    requires n < UNSIGNED
    ensures ParseChunkSize(Hex(n)) == Some(n) && |Hex(n)| <= 8
  {
    var s := Hex(n);
    assert Power16(8) == UNSIGNED by {
      assert Power16(2) == 256 && Power16(4) == 0x1_0000;
    }
    HexLength(n, 8);
    assert s[..|s|] == s && s[|s|..] == [];
    HexRunAll(s);
  }

  lemma {:induction false} HexRunAll(s: string)
    requires HexDigits(s)
    ensures HexRun(s) == |s|
  {
  }

  function AfterSize(p: Parser, n: nat): Parser {
    p.(contentLen := n, origContentLen := n, chunk := Data, trace := p.trace + [NewChunk(n)],
      total := p.total + |Hex(n)| + 2)
  }

  lemma {:induction false} SizeTaken(env: Env, head: LineTaker, p: Parser, data: string, h: string, n: nat)
    requires HooksGo(env) && AtChunkSize(p) && n > 0 && data != []
    requires TakeLine(env.maxLine, data) == Line(h, |h| + 2) && ParseChunkSize(h) == Some(n)
    ensures Step(env, head, p, data) ==
      Did(p.(contentLen := n, origContentLen := n, chunk := Data, trace := p.trace + [NewChunk(n)],
        total := p.total + (|h| + 2)), |h| + 2)
  {
    GoingCall(env, p.(contentLen := n, origContentLen := n, chunk := Data), NewChunk(n));
    var q := p.(contentLen := n, origContentLen := n, chunk := Data, trace := p.trace + [NewChunk(n)]);
    assert ChunkSizeStep(env, p, data) == Did(q, |h| + 2);
    assert PhaseStep(env, head, p, data) == Did(q, |h| + 2);
  }

  lemma {:induction false} SizeStep(env: Env, head: LineTaker, p: Parser, n: nat, rest: string)
    requires HooksGo(env) && AtChunkSize(p) && 0 < n < UNSIGNED && Fits(env, Hex(n))
    ensures Step(env, head, p, Hex(n) + CRLF + rest) == Did(AfterSize(p, n), |Hex(n)| + 2)
    ensures !OnEdge(env, p, Hex(n) + CRLF + rest)
  {
    hide Step, IndexOf, TakeLine, ParseChunkSize, Hex, PieceEdge;
    TakeCrlf(env.maxLine, Hex(n), rest);
    SizeReadBack(n);
    SizeTaken(env, head, p, Hex(n) + CRLF + rest, Hex(n), n);
  }

  /** The parser after one chunk. */
  function AfterChunk(p: Parser, b: string): Parser {
    p.(contentLen := 0, origContentLen := |b|, trace := p.trace + [NewChunk(|b|), BodyPiece(b), ChunkComplete],
       total := p.total + |ChunkBytes(b)|)
  }

  lemma {:induction false} EndStep(env: Env, head: LineTaker, p: Parser, rest: string)
    requires HooksGo(env) && p.phase.Body? && p.body.Chunked? && p.chunk.DataEnd?
    ensures Step(env, head, p, CRLF + rest) ==
      Did(p.(chunk := Size, trace := p.trace + [ChunkComplete], total := p.total + 2), 2)
  {
    assert CRLF + rest == [] + CRLF + rest;
    TakeCrlf(env.maxLine, [], rest);
  }

  /** The parser after a chunk's data. */
  function AfterData(p: Parser, b: string): Parser {
    p.(contentLen := 0, origContentLen := |b|, chunk := DataEnd, trace := p.trace + [NewChunk(|b|)] + [BodyPiece(b)],
       total := p.total + |Hex(|b|)| + 2 + |b|)
  }

  lemma {:induction false} DataTaken(env: Env, head: LineTaker, p: Parser, b: string, data: string)
    requires HooksGo(env) && AtChunkSize(p) && b != [] && b <= data
    ensures Step(env, head, AfterSize(p, |b|), data) == Did(AfterData(p, b), |b|)
  {
    hide Step, HandOut;
    assert data[..|b|] == b;
    HooksGoDeep(env);
    PieceStepIs(env, head, AfterSize(p, |b|), data);
    DataHandedOut(env, p, b);
  }

  lemma {:induction false} HooksGoDeep(env: Env)
    requires HooksGo(env)
    ensures BodyHooksDoNotSkip(env) && BodyHooksGo(env)
  {
  }

  lemma {:induction false} DataHandedOut(env: Env, p: Parser, b: string)
    requires HooksGo(env) && AtChunkSize(p) && b != []
    ensures HandOut(env, AfterSize(p, |b|), b) == AfterData(p, b)
  {
    hide Hex;
    var t := AfterSize(p, |b|).trace;
    assert Append(t, BodyPiece(b)) == t + [BodyPiece(b)];
  }

  lemma {:induction false} DataStep(env: Env, head: LineTaker, p: Parser, b: string, rest: string)
    requires HooksGo(env) && AtChunkSize(p) && b != []
    ensures Step(env, head, AfterSize(p, |b|), b + CRLF + rest) == Did(AfterData(p, b), |b|)
  {
    DataTaken(env, head, p, b, b + CRLF + rest);
  }

  lemma {:induction false} Slices(h: string, c: string, b: string, rest: string)
    ensures var d0, d1 := h + c + b + c + rest, b + c + rest;
      d0 == h + c + d1 && d0[|h + c|..] == d1 && d1[|b|..] == c + rest && (c + rest)[|c|..] == rest
  {
    assert h + c + b + c + rest == h + c + (b + c + rest);
  }

  lemma {:induction false} ChunkSlices(b: string, rest: string)
    requires 0 < |b| < UNSIGNED
    ensures var h, d0, d1, d2 := Hex(|b|), ChunkBytes(b) + rest, b + CRLF + rest, CRLF + rest;
      && |h| + 2 <= |d0| && |ChunkBytes(b)| == |h| + 2 + |b| + 2
      && d0 == h + CRLF + d1 && d0[|h| + 2..] == d1 && d1[|b|..] == d2 && d2[2..] == rest
  {
    assert |b| % UNSIGNED == |b|;
    Slices(Hex(|b|), CRLF, b, rest);
  }

  lemma {:induction false} AfterChunkIs(p: Parser, b: string)
    requires AtChunkSize(p) && 0 < |b| < UNSIGNED
    ensures var q := AfterData(p, b);
      q.(chunk := Size, trace := q.trace + [ChunkComplete], total := q.total + 2) == AfterChunk(p, b)
  {
    ChunkSlices(b, []);
    assert p.trace + [NewChunk(|b|)] + [BodyPiece(b)] + [ChunkComplete] ==
      p.trace + [NewChunk(|b|), BodyPiece(b), ChunkComplete];
  }

  // ---------------------------------------------------------------------------------------
  // Machines that read chunks
  // ---------------------------------------------------------------------------------------

  /** Names a chunk being read, so that the facts below are used exactly where a proof says. */
  ghost predicate ChunkAt(p: Parser, b: string, rest: string) {
    true
  }

  predicate Chunkable(env: Env, p: Parser, b: string) {
    AtChunkSize(p) && 0 < |b| < UNSIGNED && Fits(env, Hex(|b|))
  }

  ghost predicate ReadsSizes(env: Env, m: Machine<Parser>) {
    forall p, b, rest {:trigger ChunkAt(p, b, rest)} :: ChunkAt(p, b, rest) && Chunkable(env, p, b) ==>
      m.ok(p) && m.step(p, ChunkBytes(b) + rest) == Did(AfterSize(p, |b|), |Hex(|b|)| + 2) &&
        !m.edge(p, ChunkBytes(b) + rest)
  }

  ghost predicate ReadsData(env: Env, m: Machine<Parser>) {
    forall p, b, rest {:trigger ChunkAt(p, b, rest)} :: ChunkAt(p, b, rest) && Chunkable(env, p, b) ==>
      var p1 := AfterSize(p, |b|);
      m.step(p1, b + CRLF + rest) == Did(AfterData(p, b), |b|) && !m.edge(p1, b + CRLF + rest)
  }

  ghost predicate ReadsEnds(env: Env, m: Machine<Parser>) {
    forall p, b, rest {:trigger ChunkAt(p, b, rest)} :: ChunkAt(p, b, rest) && Chunkable(env, p, b) ==>
      m.step(AfterData(p, b), CRLF + rest) == Did(AfterChunk(p, b), 2) && !m.edge(AfterData(p, b), CRLF + rest)
  }

  lemma {:induction false} ParserReadsSizes(env: Env, head: LineTaker)
    requires HooksGo(env)
    ensures ReadsSizes(env, ParserMachine(env, head))
  {
    var m := ParserMachine(env, head);
    forall p, b, rest | ChunkAt(p, b, rest) && Chunkable(env, p, b)
      ensures m.ok(p) && m.step(p, ChunkBytes(b) + rest) == Did(AfterSize(p, |b|), |Hex(|b|)| + 2) &&
        !m.edge(p, ChunkBytes(b) + rest)
    {
      ChunkSlices(b, rest);
      SizeStep(env, head, p, |b|, b + CRLF + rest);
    }
  }

  lemma {:induction false} ParserReadsData(env: Env, head: LineTaker)
    requires HooksGo(env)
    ensures ReadsData(env, ParserMachine(env, head))
  {
    var m := ParserMachine(env, head);
    forall p, b, rest | ChunkAt(p, b, rest) && Chunkable(env, p, b)
      ensures var p1 := AfterSize(p, |b|);
        m.step(p1, b + CRLF + rest) == Did(AfterData(p, b), |b|) && !m.edge(p1, b + CRLF + rest)
    {
      DataStep(env, head, p, b, rest);
    }
  }

  lemma {:induction false} ParserReadsEnds(env: Env, head: LineTaker)
    requires HooksGo(env)
    ensures ReadsEnds(env, ParserMachine(env, head))
  {
    hide Step, AfterChunk;
    var m := ParserMachine(env, head);
    forall p, b, rest | ChunkAt(p, b, rest) && Chunkable(env, p, b)
      ensures m.step(AfterData(p, b), CRLF + rest) == Did(AfterChunk(p, b), 2) && !m.edge(AfterData(p, b), CRLF + rest)
    {
      EndStep(env, head, AfterData(p, b), rest);
      AfterChunkIs(p, b);
    }
  }

  ghost predicate ReadsChunks(env: Env, m: Machine<Parser>) {
    Sound(m) && ReadsSizes(env, m) && ReadsData(env, m) && ReadsEnds(env, m)
  }

  /** One chunk is read back, whatever follows it, and none of its lines is on an edge. */
  lemma {:induction false} ReadChunk(env: Env, m: Machine<Parser>, p: Parser, b: string, rest: string)
    requires ReadsChunks(env, m) && Chunkable(env, p, b)
    ensures m.ok(p) && m.ok(AfterChunk(p, b)) && AtChunkSize(AfterChunk(p, b))
    ensures Exhaust(m, p, ChunkBytes(b) + rest) == Exhaust(m, AfterChunk(p, b), rest)
    ensures EdgeFree(m, AfterChunk(p, b), rest) ==> EdgeFree(m, p, ChunkBytes(b) + rest)
  {
    assert ChunkAt(p, b, rest);
    ChunkSlices(b, rest);
    ThreeSteps(m, p, ChunkBytes(b) + rest, AfterSize(p, |b|), |Hex(|b|)| + 2, b + CRLF + rest,
               AfterData(p, b), |b|, CRLF + rest, AfterChunk(p, b), 2, rest);
  }

  lemma {:induction false} ThreeSteps(m: Machine<Parser>, p: Parser, d0: string, p1: Parser, n1: nat, d1: string,
                                      p2: Parser, n2: nat, d2: string, p3: Parser, n3: nat, d3: string)
    requires Sound(m) && m.ok(p)
    requires m.step(p, d0) == Did(p1, n1) && n1 <= |d0| && d0[n1..] == d1 && !m.edge(p, d0)
    requires m.step(p1, d1) == Did(p2, n2) && n2 <= |d1| && d1[n2..] == d2 && !m.edge(p1, d1)
    requires m.step(p2, d2) == Did(p3, n3) && n3 <= |d2| && d2[n3..] == d3 && !m.edge(p2, d2)
    ensures m.ok(p3) && Exhaust(m, p, d0) == Exhaust(m, p3, d3)
    ensures EdgeFree(m, p3, d3) ==> EdgeFree(m, p, d0)
  {
    ExhaustStep(m, p, d0, p1, n1);
    ExhaustStep(m, p1, d1, p2, n2);
    ExhaustStep(m, p2, d2, p3, n3);
  }

  // ---------------------------------------------------------------------------------------
  // The last chunk
  // ---------------------------------------------------------------------------------------

  /** The empty line ends the trailers. */
  ghost predicate EndsTrailers(head: LineTaker) {
    forall q: Parser :: q.phase.Trailers? ==> head(q, "") == q.(phase := Complete)
  }

  function AfterZero(p: Parser): Parser {
    p.(phase := Trailers, headerCount := 0, trace := p.trace + [ChunksComplete], total := p.total + 3)
  }

  function AfterTrailers(p: Parser): Parser {
    AfterZero(p).(phase := Complete, total := p.total + 3 + 2)
  }

  /** The parser after the whole message. */
  function Finished(p: Parser): Parser {
    p.(phase := Start, headerCount := 0, flags := p.flags - {Skipping},
       trace := p.trace + [ChunksComplete] + [MsgComplete], total := p.total + 3 + 2)
  }

  lemma {:induction false} ZeroTaken(env: Env, head: LineTaker, p: Parser, data: string)
    requires HooksGo(env) && AtChunkSize(p) && data != []
    requires TakeLine(env.maxLine, data) == Line("0", 3)
    ensures Step(env, head, p, data) == Did(AfterZero(p), 3)
  {
    assert ParseChunkSize("0") == Some(0) by {
      assert "0"[..1] == "0" && "0"[1..] == [] && HexRun("0") == 1 && Hexadecimal("0") == 0;
    }
    GoingCall(env, p.(phase := Trailers, headerCount := 0), ChunksComplete);
    assert ChunkSizeStep(env, p, data) ==
      Did(p.(phase := Trailers, headerCount := 0, trace := p.trace + [ChunksComplete]), 3);
  }

  lemma {:induction false} BlankTaken(env: Env, head: LineTaker, p: Parser, data: string)
    requires EndsTrailers(head) && p.phase.Trailers? && TakeLine(env.maxLine, data) == Line("", 2)
    ensures Step(env, head, p, data) == Did(p.(phase := Complete, total := p.total + 2), 2)
  {
  }

  lemma {:induction false} CompleteTaken(env: Env, head: LineTaker, p: Parser, data: string)
    requires HooksGo(env) && p.phase.Complete?
    ensures Step(env, head, p, data) ==
      Did(p.(phase := Start, flags := p.flags - {Skipping}, trace := p.trace + [MsgComplete]), 0)
  {
    GoingCall(env, p.(phase := Start, flags := p.flags - {Skipping}), MsgComplete);
  }

  /** How a machine reads the last chunk. */
  ghost predicate ReadsLast(m: Machine<Parser>, p: Parser, rest: string) {
    && m.ok(p)
    && m.step(p, LAST_CHUNK + rest) == Did(AfterZero(p), 3) && !m.edge(p, LAST_CHUNK + rest)
    && m.step(AfterZero(p), CRLF + rest) == Did(AfterTrailers(p), 2) && !m.edge(AfterZero(p), CRLF + rest)
    && m.step(AfterTrailers(p), rest) == Did(Finished(p), 0) && !m.edge(AfterTrailers(p), rest)
  }

  lemma {:induction false} ParserReadsLast(env: Env, head: LineTaker, p: Parser, rest: string)
    requires HooksGo(env) && EndsTrailers(head) && AtChunkSize(p) && Fits(env, "0")
    ensures ReadsLast(ParserMachine(env, head), p, rest)
  {
    hide Step, IndexOf, TakeLine, PieceEdge;
    LastSlices(rest);
    TakeCrlf(env.maxLine, "0", CRLF + rest);
    ZeroTaken(env, head, p, LAST_CHUNK + rest);
    TakeCrlf(env.maxLine, "", rest);
    BlankTaken(env, head, AfterZero(p), CRLF + rest);
    CompleteTaken(env, head, AfterTrailers(p), rest);
  }

  lemma {:induction false} LastSlices(rest: string)
    ensures LAST_CHUNK + rest == "0" + CRLF + (CRLF + rest) && "" + CRLF + rest == CRLF + rest
    ensures (LAST_CHUNK + rest)[3..] == CRLF + rest && (CRLF + rest)[2..] == rest
  {
    assert LAST_CHUNK == "0" + CRLF + CRLF;
  }

  lemma {:induction false} ReadLast(m: Machine<Parser>, p: Parser, rest: string)
    requires Sound(m) && ReadsLast(m, p, rest)
    ensures m.ok(p) && m.ok(Finished(p))
    ensures Exhaust(m, p, LAST_CHUNK + rest) == Exhaust(m, Finished(p), rest)
    ensures EdgeFree(m, Finished(p), rest) ==> EdgeFree(m, p, LAST_CHUNK + rest)
  {
    LastSlices(rest);
    assert rest[0..] == rest;
    ThreeSteps(m, p, LAST_CHUNK + rest, AfterZero(p), 3, CRLF + rest, AfterTrailers(p), 2, rest, Finished(p), 0, rest);
  }

  // ---------------------------------------------------------------------------------------
  // Whole bodies
  // ---------------------------------------------------------------------------------------

  /** The parser after the chunks of all non-empty buffers. */
  function AfterAll(p: Parser, bufs: seq<string>): Parser
    decreases |bufs|
  {
    if bufs == [] then p else AfterAll(if bufs[0] == [] then p else AfterChunk(p, bufs[0]), bufs[1..])
  }

  ghost predicate AllFit(env: Env, bufs: seq<string>) {
    Fits(env, "0") && forall i :: 0 <= i < |bufs| ==>
      |bufs[i]| < UNSIGNED && (bufs[i] != [] ==> Fits(env, Hex(|bufs[i]|)))
  }

  /** The bytes from some chunk on: the chunks left, the last one, and what follows the message. */
  function Wire(bufs: seq<string>, rest: string): string {
    if bufs == [] then LAST_CHUNK + rest else ChunkBytes(bufs[0]) + Wire(bufs[1..], rest)
  }

  lemma {:induction false} WireIs(bufs: seq<string>, rest: string)
    ensures Wire(bufs, rest) == AllChunks(bufs) + LAST_CHUNK + rest
  {
    if bufs == [] {
      assert AllChunks(bufs) + LAST_CHUNK + rest == LAST_CHUNK + rest;
    } else {
      WireIs(bufs[1..], rest);
      Regroup(ChunkBytes(bufs[0]), AllChunks(bufs[1..]), LAST_CHUNK, rest);
    }
  }

  lemma {:induction false} Regroup(a: string, b: string, c: string, d: string)
    ensures a + (b + c + d) == a + b + c + d
  {
  }

  /** All chunks and the last one are read back, whatever follows. */
  lemma {:induction false} ReadAll(env: Env, m: Machine<Parser>, p: Parser, bufs: seq<string>, rest: string)
    requires ReadsChunks(env, m) && AtChunkSize(p) && AllFit(env, bufs) && m.ok(p)
    requires ReadsLast(m, AfterAll(p, bufs), rest)
    ensures m.ok(Finished(AfterAll(p, bufs)))
    ensures Exhaust(m, p, Wire(bufs, rest)) == Exhaust(m, Finished(AfterAll(p, bufs)), rest)
    ensures EdgeFree(m, Finished(AfterAll(p, bufs)), rest) ==> EdgeFree(m, p, Wire(bufs, rest))
    decreases |bufs|
  {
    if bufs == [] {
      ReadLast(m, p, rest);
    } else {
      var b, more := bufs[0], Wire(bufs[1..], rest);
      if b == [] {
        assert ChunkBytes(b) + more == more;
        ReadAll(env, m, p, bufs[1..], rest);
      } else {
        ReadChunk(env, m, p, b, more);
        ReadAll(env, m, AfterChunk(p, b), bufs[1..], rest);
      }
    }
  }

  lemma {:induction false} AfterAllAtSize(p: Parser, bufs: seq<string>)
    requires AtChunkSize(p)
    ensures AtChunkSize(AfterAll(p, bufs))
    decreases |bufs|
  {
    if bufs != [] {
      AfterAllAtSize(if bufs[0] == [] then p else AfterChunk(p, bufs[0]), bufs[1..]);
    }
  }

  lemma {:induction false} HeadEndsTrailers(env: Env)
    ensures EndsTrailers(Head(env))
  {
    forall q: Parser | q.phase.Trailers? ensures Head(env)(q, "") == q.(phase := Complete) {}
  }

  /** Between messages, with nothing left to read, no line is on an edge. */
  lemma {:induction false} FinishedIsQuiet(env: Env, head: LineTaker, p: Parser)
    requires Sound(ParserMachine(env, head)) && p.phase.Start?
    ensures ParserMachine(env, head).ok(p)
    ensures Exhaust(ParserMachine(env, head), p, "") == Outcome(p, "") && EdgeFree(ParserMachine(env, head), p, "")
  {
  }

  lemma {:induction false} ParserReadsChunks(env: Env, head: LineTaker)
    requires HooksGo(env) && HeadOk(head)
    ensures ReadsChunks(env, ParserMachine(env, head))
  {
    MachineSound(env, head);
    ParserReadsSizes(env, head);
    ParserReadsData(env, head);
    ParserReadsEnds(env, head);
  }

  /** The whole body read at once: the parser between messages, nothing left over, no line on an edge. */
  lemma {:induction false} ReadWhole(env: Env, head: LineTaker, p: Parser, bufs: seq<string>)
    requires HooksGo(env) && HeadOk(head) && EndsTrailers(head) && AtChunkSize(p) && AllFit(env, bufs)
    ensures var m := ParserMachine(env, head);
      && Sound(m) && m.ok(p)
      && Exhaust(m, p, AllChunks(bufs) + LAST_CHUNK) == Outcome(Finished(AfterAll(p, bufs)), "")
      && EdgeFree(m, p, AllChunks(bufs) + LAST_CHUNK)
  {
    var q := AfterAll(p, bufs);
    ParserReadsChunks(env, head);
    AfterAllAtSize(p, bufs);
    ParserReadsLast(env, head, q, "");
    ReadAll(env, ParserMachine(env, head), p, bufs, "");
    FinishedIsQuiet(env, head, Finished(q));
    WireIs(bufs, "");
    assert AllChunks(bufs) + LAST_CHUNK + "" == AllChunks(bufs) + LAST_CHUNK;
  }

  /**
   The chunked round trip: for every list of buffers below 2^32 bytes, what the writer sends after
   its head is read back by the parser, cut into any pieces and paused anywhere, as one
   on_new_chunk / body / on_chunk_complete for each non-empty buffer with its size and its bytes,
   then one completion, with no bytes left over.
   */
  lemma {:induction false} ChunkedRoundTrip(
    env: Env, p: Parser, bufs: seq<string>, pause: nat -> bool, calls: nat, pieces: seq<string>)
    requires HooksGo(env) && AtChunkSize(p) && AllFit(env, bufs) && Concat(pieces) == AllChunks(bufs) + LAST_CHUNK
    ensures var m := ParserMachine(env, Head(env));
      && Sound(m) && m.ok(p)
      && var d := Feed(m, pause, Driven(p, "", calls), pieces); d.s == Finished(AfterAll(p, bufs)) && d.rest == ""
  {
    var head := Head(env);
    var m := ParserMachine(env, head);
    HeadIsOk(env);
    HeadEndsTrailers(env);
    RoundTripFor(env, head, p, bufs, pause, calls, pieces);
  }

  lemma {:induction false} RoundTripFor(
    env: Env, head: LineTaker, p: Parser, bufs: seq<string>, pause: nat -> bool, calls: nat, pieces: seq<string>)
    requires HooksGo(env) && HeadOk(head) && EndsTrailers(head) && AtChunkSize(p) && AllFit(env, bufs)
    requires Concat(pieces) == AllChunks(bufs) + LAST_CHUNK
    ensures var m := ParserMachine(env, head);
      && Sound(m) && m.ok(p)
      && var d := Feed(m, pause, Driven(p, "", calls), pieces); d.s == Finished(AfterAll(p, bufs)) && d.rest == ""
  {
    var m, data := ParserMachine(env, head), AllChunks(bufs) + LAST_CHUNK;
    ReadWhole(env, head, p, bufs);
    SplitAndPauseInvariance(env, head, p, data);
    assert CutsDoNotShow(m, p, data);
  }

  /**
   A whole reply as the writer sends it, from a fresh parser: whatever the head says, if the parser
   takes it whole, off the edge, to the first chunk size, then cutting the reply anywhere, across the
   end of the head too, the buffered body and the buffers are read back, with nothing left over.
   */
  lemma {:induction false} ReplyRoundTrip(
    env: Env, head: string, body: string, bufs: seq<string>, pause: nat -> bool, calls: nat, pieces: seq<string>)
    requires HooksGo(env) && AllFit(env, [body] + bufs)
    requires TakenToChunks(env, head)
    requires Concat(pieces) == head + AllChunks([body] + bufs) + LAST_CHUNK
    ensures var m := ParserMachine(env, Head(env));
      && Sound(m) && m.ok(FRESH)
      && var p, d := Exhaust(m, FRESH, head).s, Feed(m, pause, Driven(FRESH, "", calls), pieces);
         d.s == Finished(AfterAll(p, [body] + bufs)) && d.rest == ""
  {
    hide Sound, EdgeFree, Exhaust, AllChunks, AfterAll, Feed, CutsDoNotShow, TakenToChunks, Finished, AllFit, Step;
    var rest := AllChunks([body] + bufs) + LAST_CHUNK;
    ReplyRead(env, head, [body] + bufs);
    assert head + rest == head + AllChunks([body] + bufs) + LAST_CHUNK;
    ParserSplitInvariance(env, head + rest);
    NotShown(ParserMachine(env, Head(env)), head + rest, pause, calls, pieces);
  }

  /** The same presented at once. */
  lemma {:induction false} ReplyRead(env: Env, head: string, bufs: seq<string>)
    requires HooksGo(env) && AllFit(env, bufs) && TakenToChunks(env, head)
    ensures var m, data := ParserMachine(env, Head(env)), head + (AllChunks(bufs) + LAST_CHUNK);
      && Sound(m) && m.ok(FRESH) && EdgeFree(m, FRESH, data)
      && Exhaust(m, FRESH, data) == Outcome(Finished(AfterAll(Exhaust(m, FRESH, head).s, bufs)), "")
  {
    var m := ParserMachine(env, Head(env));
    Machinery(env);
    HeadEndsTrailers(env);
    hide Sound, Extends, Settled, EdgeFree, Exhaust, AllChunks, AfterAll, Finished, AllFit, HooksGo, Step, HeadOk,
      EndsTrailers;
    var p, rest := Exhaust(m, FRESH, head).s, AllChunks(bufs) + LAST_CHUNK;
    ReadWhole(env, Head(env), p, bufs);
    StreamsJoin(m, FRESH, head, rest);
  }

  lemma {:induction false} Machinery(env: Env)
    requires HooksGo(env)
    ensures HeadOk(Head(env)) && BodyHooksGo(env)
    ensures var m := ParserMachine(env, Head(env));
      Sound(m) && Extends(m) && Settled(m) && forall p, data :: m.dead(p) ==> m.step(p, data).Stuck?
  {
    HeadIsOk(env);
    hide HeadOk, Sound, Extends, Settled, Step;
    MachineSound(env, Head(env));
    MachineExtends(env, Head(env));
    MachineSettled(env, Head(env));
    FailedStuck(env, Head(env));
  }

  lemma {:induction false} NotShown(m: Machine<Parser>, data: string, pause: nat -> bool, calls: nat,
      pieces: seq<string>)
    requires Sound(m) && m.ok(FRESH) && CutsDoNotShow(m, FRESH, data) && Concat(pieces) == data
    ensures var d := Feed(m, pause, Driven(FRESH, "", calls), pieces); Outcome(d.s, d.rest) == Exhaust(m, FRESH, data)
  {
  }

  lemma {:induction false} FailedStuck(env: Env, head: LineTaker)
    ensures var m := ParserMachine(env, head); forall p, data :: m.dead(p) ==> m.step(p, data).Stuck?
  {
    hide Step;
    forall p: Parser, data | p.phase.Failed? ensures Step(env, head, p, data).Stuck? {
      FailedIsStuck(env, head, p, data);
    }
  }

  /** The parser takes the head whole, off the edge, and then expects a chunk size. */
  ghost predicate TakenToChunks(env: Env, head: string) {
    HeadIsOk(env);
    MachineSound(env, Head(env));
    var m := ParserMachine(env, Head(env));
    var o := Exhaust(m, FRESH, head);
    EdgeFree(m, FRESH, head) && AtChunkSize(o.s) && o.rest == ""
  }

  lemma {:induction false} ChunkBodyBytes(p: Parser, b: string)
    ensures BodyBytes(AfterChunk(p, b).trace) == BodyBytes(p.trace) + b
  {
    hide BodyBytes, ChunkBytes;
    var t := p.trace;
    var t1 := t + [NewChunk(|b|)];
    var t2 := t1 + [BodyPiece(b)];
    BodyBytesSnoc(t, NewChunk(|b|));
    BodyBytesSnoc(t1, BodyPiece(b));
    BodyBytesSnoc(t2, ChunkComplete);
    assert t2 + [ChunkComplete] == t + [NewChunk(|b|), BodyPiece(b), ChunkComplete];
  }

  /** What was read back is the buffers, concatenated. */
  lemma {:induction false} BodyReadBack(p: Parser, bufs: seq<string>)
    ensures BodyBytes(AfterAll(p, bufs).trace) == BodyBytes(p.trace) + Concat(bufs)
    ensures BodyBytes(Finished(AfterAll(p, bufs)).trace) == BodyBytes(p.trace) + Concat(bufs)
    decreases |bufs|
  {
    hide BodyBytes, AfterChunk;
    if bufs != [] {
      var b := bufs[0];
      if b != [] {
        ChunkBodyBytes(p, b);
        BodyReadBack(AfterChunk(p, b), bufs[1..]);
      } else {
        BodyReadBack(p, bufs[1..]);
      }
    }
    var t := AfterAll(p, bufs).trace;
    BodyBytesSnoc(t, ChunksComplete);
    BodyBytesSnoc(t + [ChunksComplete], MsgComplete);
  }

  /** The cast is the limit: a size line says the buffer's length exactly below 2^32, and something else above. */
  lemma {:induction false} SizeLineIsTrue(n: nat)
    ensures ParseChunkSize(Hex(n % UNSIGNED)) == Some(n % UNSIGNED)
    ensures ParseChunkSize(Hex(n % UNSIGNED)) == Some(n) <==> n < UNSIGNED
  {
    SizeReadBack(n % UNSIGNED);
  }

  lemma {:induction false} LastEvent(t: seq<Event>, e: Event, e': Event)
    ensures t + [e] == t + [e'] <==> e == e'
  {
    assert (t + [e])[|t|] == e && (t + [e'])[|t|] == e';
  }

  lemma {:induction false} SizeLineTaken(env: Env, b: string, rest: string)
    requires b != [] && Fits(env, Hex(|b| % UNSIGNED))
    ensures var h := Hex(|b| % UNSIGNED); TakeLine(env.maxLine, ChunkBytes(b) + rest) == Line(h, |h| + 2)
    ensures ChunkBytes(b) + rest != []
  {
    var h := Hex(|b| % UNSIGNED);
    Slices(h, CRLF, b, rest);
    TakeCrlf(env.maxLine, h, b + CRLF + rest);
  }

  lemma {:induction false} HexZero()
    ensures Hex(0) == "0"
  {
  }

  /** On the wire: the parser is told the buffer's true size exactly below 2^32. */
  lemma {:induction false} LongChunkMisread(env: Env, head: LineTaker, p: Parser, b: string, rest: string)
    requires HooksGo(env) && AtChunkSize(p) && b != [] && Fits(env, Hex(|b| % UNSIGNED))
    ensures var r := Step(env, head, p, ChunkBytes(b) + rest);
      r.Did? && (r.s.trace == p.trace + [NewChunk(|b|)] <==> |b| < UNSIGNED)
  {
    hide Step, IndexOf, TakeLine, ParseChunkSize, Hex, ChunkBytes;
    var n := |b| % UNSIGNED;
    HexZero();
    SizeReadBack(n);
    SizeLineTaken(env, b, rest);
    LastEvent(p.trace, NewChunk(n), NewChunk(|b|));
    LastEvent(p.trace, ChunksComplete, NewChunk(|b|));
    if n > 0 {
      SizeTaken(env, head, p, ChunkBytes(b) + rest, Hex(n), n);
    } else {
      ZeroTaken(env, head, p, ChunkBytes(b) + rest);
    }
  }
}
