/**
 Whole messages, as texts: a start line, field lines, a blank line and a body, cut anywhere and with the parser
 paused anywhere, are read as the rule for bodies says. A body with a length ends where the length does, and one
 without a length and without chunks ends with the stream.
 */
module MessageRead {
  import opened Prelude
  import opened Text
  import opened Incremental
  import opened ParserSpec
  import opened StartLines
  import opened ParserRuns
  import opened ParserFraming
  import opened ParserAcceptance
  import opened ChunkWriter
  import opened ChunkRoundTrip
  import opened ReplyRead
  import Once = ParserOnce

  // ---------------------------------------------------------------------------------------
  // What a head says
  // ---------------------------------------------------------------------------------------

  /** The status and the version a start line is written with; of a request neither matters here. */
  ghost predicate StartsAs(env: Env, start: string, status: nat, version: nat) {
    if env.kind.Response? then exists major: nat, minor: nat ::
      StatusWords(start, major, minor, status) && version == major * 10 + minor
    else exists m, t, major: nat, minor: nat :: RequestIs(env, start, m, t, major, minor)
  }

  /** A head that is accepted and says that its message has this kind of body, of this length if it has one. */
  ghost predicate Frames(env: Env, start: string, lines: seq<string>, b: BodyKind, n: nat) {
    && AllFields(lines) && Acceptable(env, FieldsOf(lines)) && Room(env, |lines|)
    && var a := FactsOf(env, FieldsOf(lines));
       && AllAre(a.lengths, n) && (a.lengths == [] ==> n == 0)
       && exists status, version ::
            StartsAs(env, start, status, version) &&
            FramingRule(env.kind, false, status, version, a, n) == Some(b)
  }

  // ---------------------------------------------------------------------------------------
  // The head
  // ---------------------------------------------------------------------------------------

  /** What the start line leaves, whatever was before. */
  lemma {:induction false} StartTaken(env: Env, s: Parser, start: string, status: nat, version: nat)
    requires HooksGo(env) && StartsAs(env, start, status, version)
    ensures Begins(env, s).phase.HeadLine?
    ensures var p := Counting(env)(Begins(env, s), start);
      && p.phase.Headers? && p.headerCount == 0 && Skipping !in p.flags && Reflects(p, NO_FACTS)
      && (env.kind.Response? ==> p.status == status && p.major * 10 + p.minor == version)
      && Once.Same(s, p)
  {
    hide HeadStep, Reflects, BodyBytes, Begins, HooksGo, Once.Completes;
    var p := Begins(env, s);
    BegunRead(env, s);
    StartAccepted(env, p, start, status, version);
    StartCounts(env, s, start);
    StartLineReflects(env, p, start);
    TotalApart(HeadStep(env, p, start), NO_FACTS, p.total + (|start| + 2));
    Once.HeadSame(env, p, start);
  }

  lemma {:induction false} StartAccepted(env: Env, p: Parser, start: string, status: nat, version: nat)
    requires HooksGo(env) && StartsAs(env, start, status, version) && p.phase.HeadLine?
    ensures var q := HeadStep(env, p, start);
      q.phase.Headers? && (env.kind.Response? ==> q.status == status && q.major * 10 + q.minor == version)
  {
    hide RequestLine, StatusLine, Call, HooksGo, RequestIs, StatusWords, TargetTold, SchemeTold;
    if env.kind.Response? {
      var major: nat, minor: nat :| StatusWords(start, major, minor, status) && version == major * 10 + minor;
      StatusLineRead(p, start, major, minor, status);
      GoingCall(env, StatusLine(p, start).(phase := Headers), HdrsBegin);
    } else {
      var m, t, major: nat, minor: nat :| RequestIs(env, start, m, t, major, minor);
      RequestLineRead(env, p, start, m, t, major, minor);
      GoingCall(env, RequestLine(env, p, start).(phase := Headers), HdrsBegin);
    }
  }

  lemma {:induction false} HeadCompletesNothing(env: Env, p: Parser, lines: seq<string>)
    ensures Once.Same(p, TakeHead(Counting(env), p, lines))
    decreases |lines|
  {
    hide HeadStep, BodyBytes, Once.Completes;
    if lines != [] {
      var init := lines[..|lines| - 1];
      HeadCompletesNothing(env, p, init);
      Once.HeadSame(env, TakeHead(Counting(env), p, init), lines[|lines| - 1]);
    }
  }

  /** What start line and fields leave. */
  lemma {:induction false} HeadTaken(env: Env, s: Parser, start: string, lines: seq<string>, status: nat, version: nat)
    requires HooksGo(env) && StartsAs(env, start, status, version)
    requires AllFields(lines) && Acceptable(env, FieldsOf(lines)) && Room(env, |lines|)
    ensures Begins(env, s).phase.HeadLine? && TakesFields(env, Counting(env))
    ensures var p := Counting(env)(Begins(env, s), start); var q := TakeHead(Counting(env), p, lines);
      && p.phase.Headers? && Reflects(p, NO_FACTS)
      && q.phase.Headers? && Skipping !in q.flags && Reflects(q, FactsOf(env, FieldsOf(lines)))
      && (env.kind.Response? ==> q.status == status && q.major * 10 + q.minor == version)
      && Once.Same(s, q)
  {
    CountingTakesFields(env);
    CountingAcceptsFields(env);
    hide Reflects, TakesFields, AcceptsFields, FieldsDoNotSkip, FactsOf, FieldsOf, Acceptable, BodyBytes, HooksGo,
      StartsAs, Once.Completes, SplitField, Begins, HeadStep;
    StartTaken(env, s, start, status, version);
    var p := Counting(env)(Begins(env, s), start);
    HeadAccepted(env, Counting(env), p, lines);
    HeadReflects(env, Counting(env), p, lines);
    HeadDoesNotSkip(env, Counting(env), p, lines);
    HeadCompletesNothing(env, p, lines);
  }

  /** What the blank line leaves: the parser in the body the rule says, or at the end of the message. */
  lemma {:induction false} BlankTaken(env: Env, p: Parser, a: Facts, b: BodyKind)
    requires HooksGo(env) && p.phase.Headers? && Reflects(p, a) && Skipping !in p.flags
    requires FramingRule(env.kind, false, p.status, p.major * 10 + p.minor, a, p.origContentLen) == Some(b)
    ensures var q := Counting(env)(p, "");
      && q.phase == (if b.NoBody? then Complete else Body) && q.body == b && Skipping !in q.flags
      && (b.Length? ==> q.contentLen == p.origContentLen) && q.chunk.Size? && Once.Same(p, q)
      && q.trace == p.trace + [HdrsComplete(b, p.origContentLen)]
  {
    Once.HeadSame(env, p, "");
    FramingFollowsRule(env.kind, p, a);
    hide BodyOf, Reflects, Once.Completes, BodyBytes, Call, FramingRule;
    var p1 := Framing(env, p);
    GoingCall(env, p1.(phase := if b.NoBody? then Complete else Body), HdrsComplete(p1.body, p1.origContentLen));
  }

  // ---------------------------------------------------------------------------------------
  // The body
  // ---------------------------------------------------------------------------------------

  /** Where the parser is after the body's bytes: still in a body that runs until close, or ready for a new message. */
  ghost predicate BodyWas(p: Parser, body: string, q: Parser) {
    && BodyBytes(q.trace) == BodyBytes(p.trace) + body
    && (if p.body.Identity? && p.phase.Body?
        then q.phase.Body? && q.body.Identity? && Once.Completes(q.trace) == Once.Completes(p.trace)
        else q.phase.Start? && Once.Completes(q.trace) == Once.Completes(p.trace) + 1)
  }

  lemma {:induction false} PieceBytes(t: seq<Event>, x: string)
    ensures BodyBytes(Append(t, BodyPiece(x))) == BodyBytes(t) + x
    ensures Once.Completes(Append(t, BodyPiece(x))) == Once.Completes(t)
  {
    Once.AppendCompletes(t, BodyPiece(x));
    if t != [] && t[|t| - 1].BodyPiece? {
      var init, last := t[..|t| - 1], t[|t| - 1];
      BodyBytesSnoc(init, BodyPiece(last.text + x));
      BodyBytesSnoc(init, last);
      assert t == init + [last];
      assert BodyBytes(init) + (last.text + x) == (BodyBytes(init) + last.text) + x;
    } else {
      BodyBytesSnoc(t, BodyPiece(x));
    }
  }

  /** A complete message is told complete. */
  lemma {:induction false} Completing(env: Env, p: Parser)
    requires HooksGo(env) && Sound(ParserMachine(env, Head(env))) && p.phase.Complete?
    ensures var m := ParserMachine(env, Head(env));
      && m.ok(p) && EdgeFree(m, p, "")
      && var o := Exhaust(m, p, "");
         o.rest == "" && o.s.phase.Start? && BodyBytes(o.s.trace) == BodyBytes(p.trace) &&
         Once.Completes(o.s.trace) == Once.Completes(p.trace) + 1
  {
    var m := ParserMachine(env, Head(env));
    var q := p.(phase := Start, flags := p.flags - {Skipping}, trace := p.trace + [MsgComplete]);
    GoingCall(env, p.(phase := Start, flags := p.flags - {Skipping}), MsgComplete);
    Once.CallCompletes(env, p.(phase := Start, flags := p.flags - {Skipping}), MsgComplete);
    assert Step(env, Head(env), p, "") == Did(q, 0);
    hide Sound, Step, Call, BodyBytes, Once.Completes, HooksGo;
    AtRest(env, Head(env), q);
    assert ""[0..] == "";
    ExhaustStep(m, p, "", q, 0);
    Waits(env, q);
    Waits(env, p);
  }

  /** Without bytes nothing is on an edge. */
  lemma {:induction false} Waits(env: Env, p: Parser)
    ensures !OnEdge(env, p, "")
  {
  }

  /** A body that runs until close takes every byte there is. */
  lemma {:induction false} UntilCloseRead(env: Env, p: Parser, body: string)
    requires HooksGo(env) && Sound(ParserMachine(env, Head(env))) && p.phase.Body? && p.body.Identity?
    ensures var m := ParserMachine(env, Head(env));
      && m.ok(p) && EdgeFree(m, p, body) && Exhaust(m, p, body).rest == "" && BodyWas(p, body, Exhaust(m, p, body).s)
  {
    hide Sound, Step, BodyBytes, Once.Completes, HooksGo, PieceEdge, EdgeFree, Exhaust;
    var m := ParserMachine(env, Head(env));
    if body == "" {
      Still(env, p);
      assert BodyBytes(p.trace) + body == BodyBytes(p.trace);
    } else {
      var q := AfterPiece(p, body);
      PieceGoes(env, p, body);
      ExhaustStep(m, p, body, q, |body|);
      assert body[|body|..] == "";
      PieceBytes(p.trace, body);
      Still(env, q);
    }
  }

  /** In a body, or between messages, the parser waits for bytes. */
  lemma {:induction false} Still(env: Env, p: Parser)
    requires Sound(ParserMachine(env, Head(env))) && WellFormed(p) && !p.phase.Complete?
    ensures var m := ParserMachine(env, Head(env)); EdgeFree(m, p, "") && Exhaust(m, p, "") == Outcome(p, "")
  {
    hide Sound, Step, OnEdge;
    AtRest(env, Head(env), p);
    Waits(env, p);
  }

  /** Hooks that go take a piece whole, and no cut in it shows. */
  lemma {:induction false} PieceGoes(env: Env, p: Parser, x: string)
    requires HooksGo(env) && p.phase.Body? && WellFormed(p) && x != ""
    requires p.body.Identity? || (p.body.Length? && |x| <= p.contentLen)
    ensures Step(env, Head(env), p, x) == Did(AfterPiece(p, x), |x|) && !OnEdge(env, p, x)
  {
    hide Step, HandOut, HooksGo, BodyHooksGo, BodyHooksDoNotSkip, AfterPiece, OnEdge, WellFormed, Head;
    HooksGoDeep(env);
    assert PieceLength(p, |x|) == |x|;
    assert x[..|x|] == x;
    PieceStepIs(env, Head(env), p, x);
    HandedWhole(env, p, x);
    PieceOffEdge(env, p, x);
  }

  lemma {:induction false} PieceOffEdge(env: Env, p: Parser, x: string)
    requires BodyHooksGo(env) && p.phase.Body? && (p.body.Identity? || p.body.Length?)
    ensures !OnEdge(env, p, x)
  {
    hide PieceEdge, BodyHooksGo, IndexOf;
    GoingIsOffEdge(env, p, x[..PieceLength(p, |x|)]);
  }

  lemma {:induction false} HandedWhole(env: Env, p: Parser, x: string)
    requires HooksGo(env)
    ensures HandOut(env, p, x) == AfterPiece(p, x)
  {
    hide AfterPiece;
  }

  /** A body with a length ends with its last byte. */
  lemma {:induction false} CountedRead(env: Env, p: Parser, body: string)
    requires HooksGo(env) && Sound(ParserMachine(env, Head(env))) && p.phase.Body? && p.body.Length?
    requires 0 < |body| == p.contentLen
    ensures var m := ParserMachine(env, Head(env));
      && m.ok(p) && EdgeFree(m, p, body) && Exhaust(m, p, body).rest == "" && BodyWas(p, body, Exhaust(m, p, body).s)
  {
    hide Sound, Step, BodyBytes, Once.Completes, HooksGo, PieceEdge, EdgeFree, Exhaust;
    var m, q := ParserMachine(env, Head(env)), AfterPiece(p, body);
    PieceGoes(env, p, body);
    ExhaustStep(m, p, body, q, |body|);
    assert body[|body|..] == "";
    PieceBytes(p.trace, body);
    Completing(env, q);
  }

  // ---------------------------------------------------------------------------------------
  // Whole messages
  // ---------------------------------------------------------------------------------------

  /** A message: its lines, the body they announce, and the parts the body is sent in. */
  datatype Message = Message(start: string, lines: seq<string>, kind: BodyKind, length: nat, parts: seq<string>)

  function HeadLines(start: string, lines: seq<string>): string {
    Render([start] + lines + [""])
  }

  /** The body on the wire: in chunks, or as it is. */
  function BodyText(kind: BodyKind, parts: seq<string>): string {
    if kind.Chunked? then AllChunks(parts) + LAST_CHUNK else Concat(parts)
  }

  function MessageText(msg: Message): string {
    HeadLines(msg.start, msg.lines) + BodyText(msg.kind, msg.parts)
  }

  /** A body of the kind that was announced. */
  ghost predicate BodyFits(env: Env, kind: BodyKind, length: nat, parts: seq<string>) {
    match kind
    case NoBody => Concat(parts) == ""
    case Length => |Concat(parts)| == length
    case Identity => true
    case Chunked => AllFit(env, parts)
  }

  ghost predicate LinesAllFit(env: Env, start: string, lines: seq<string>) {
    LineFits(env, start) && LineFits(env, "") && forall i :: 0 <= i < |lines| ==> LineFits(env, lines[i])
  }

  /** A message whose head is accepted, whose lines fit, and whose body is as announced. */
  ghost predicate Good(env: Env, msg: Message) {
    && Frames(env, msg.start, msg.lines, msg.kind, msg.length) && LinesAllFit(env, msg.start, msg.lines)
    && BodyFits(env, msg.kind, msg.length, msg.parts)
  }

  lemma {:induction false} HeadLinesAre(start: string, lines: seq<string>, body: string)
    ensures HeadLines(start, lines) + body == start + CRLF + (Render(lines) + ("" + CRLF + body))
  {
    hide Render;
    RenderSnoc([start] + lines, "");
    RenderCons(start, lines);
  }

  lemma {:induction false} StartsPlainly(env: Env, start: string, status: nat, version: nat)
    requires StartsAs(env, start, status, version)
    ensures start != "" && start[0] != '\r' && start[0] != '\n'
  {
    if env.kind.Response? {
      var major: nat, minor: nat :| StatusWords(start, major, minor, status) && version == major * 10 + minor;
      assert start[0] == (VersionOf(major, minor) + " " + CodeOf(status))[0] == 'H';
    } else {
      var m, t, major: nat, minor: nat :| RequestIs(env, start, m, t, major, minor);
      RequestStartsPlainly(start, m, t, VersionOf(major, minor));
    }
  }

  lemma {:induction false} RequestStartsPlainly(start: string, m: string, t: string, v: string)
    requires RequestWords(start, m, t, v) && m in METHODS
    ensures start != "" && start[0] != '\r' && start[0] != '\n'
  {
    var a, b, c, d :| Spaces(a) && Spaces(b) && Spaces(c) && Spaces(d) && b != "" && c != "" &&
      start == a + m + (b + t + (c + v + d));
    if a != "" {
      assert start[0] == a[0] == ' ';
    } else {
      assert start[0] == m[0];
    }
  }

  /** The rule applied to what the parser holds is the rule applied to what the head says. */
  lemma {:induction false} SameRule(env: Env, q: Parser, a: Facts, status: nat, version: nat, n: nat)
    requires LengthsSay(q, a.lengths) && AllAre(a.lengths, n) && (a.lengths == [] ==> n == 0)
    requires env.kind.Response? ==> q.status == status && q.major * 10 + q.minor == version
    ensures q.origContentLen == n
    ensures FramingRule(env.kind, false, q.status, q.major * 10 + q.minor, a, n) ==
      FramingRule(env.kind, false, status, version, a, n)
  {
    if a.lengths != [] {
      assert ParseU64(a.lengths[0]) == Some(n) && ParseU64(a.lengths[0]) == Some(q.origContentLen);
    }
  }

  /** A counted body is not empty. */
  lemma {:induction false} CountedIsSome(env: Env, status: nat, version: nat, a: Facts, n: nat)
    requires FramingRule(env.kind, false, status, version, a, n) == Some(Length)
    ensures n > 0
  {
  }

  /** The parser at the end of a head that announced this body. */
  ghost predicate AtBody(r: Parser, kind: BodyKind, n: nat) {
    && r.phase == (if kind.NoBody? then Complete else Body) && r.body == kind
    && (kind.Length? ==> r.contentLen == n > 0) && (kind.Chunked? ==> r.chunk.Size?)
  }

  /** From between messages to the end of the head. */
  lemma {:induction false} HeadGone(env: Env, s: Parser, start: string, lines: seq<string>, b: BodyKind, n: nat,
                                    body: string) returns (r: Parser)
    requires HooksGo(env) && s.phase.Start? && Sound(ParserMachine(env, Head(env)))
    requires Frames(env, start, lines, b, n) && LinesAllFit(env, start, lines)
    ensures AtBody(r, b, n) && Once.Same(s, r)
    ensures var m := ParserMachine(env, Head(env));
      && m.ok(s) && m.ok(r)
      && Exhaust(m, s, HeadLines(start, lines) + body) == Exhaust(m, r, body)
      && Exhaust(m, s, HeadLines(start, lines)) == Exhaust(m, r, "")
  {
    var a := FactsOf(env, FieldsOf(lines));
    var status, version :| StartsAs(env, start, status, version) &&
      FramingRule(env.kind, false, status, version, a, n) == Some(b);
    hide FactsOf, FieldsOf, Acceptable, StartsAs, FramingRule, HeadStep, Sound, Exhaust, TakesFields, Begins, Render,
      Step, BodyBytes, HooksGo, LineFits, SplitField, Once.Completes, HeadLines, CodingsSay, TokensSay, AllAre;
    HeadTaken(env, s, start, lines, status, version);
    var p := Counting(env)(Begins(env, s), start);
    var q := TakeHead(Counting(env), p, lines);
    SameRule(env, q, a, status, version, n);
    BlankTaken(env, q, a, b);
    if b.Length? {
      CountedIsSome(env, status, version, a, n);
    }
    r := Counting(env)(q, "");
    StartsPlainly(env, start, status, version);
    HeadRuns(env, s, start, lines, p, q, body);
    HeadRuns(env, s, start, lines, p, q, "");
    HeadLinesAre(start, lines, body);
    HeadLinesAre(start, lines, "");
    assert HeadLines(start, lines) + "" == HeadLines(start, lines);
  }

  /** The head by itself is off the edge. */
  lemma {:induction false} HeadOffEdge(env: Env, s: Parser, start: string, lines: seq<string>)
    requires HooksGo(env) && LinesAllFit(env, start, lines) && s.phase.Start?
    ensures var m := ParserMachine(env, Head(env)); Sound(m) && m.ok(s) && EdgeFree(m, s, HeadLines(start, lines))
  {
    hide HooksGo, HeadOk, Sound, EdgeFree, LinesFit, BodyHooksGo, BodyHooksDoNotSkip, HeadLines, LinesAllFit, Step;
    HeadIsOk(env);
    HooksGoDeep(env);
    HeadLinesFit(env, start, lines);
    FittingIsEdgeFree(env, Head(env), s, HeadLines(start, lines));
  }

  lemma {:induction false} HeadLinesFit(env: Env, start: string, lines: seq<string>)
    requires LinesAllFit(env, start, lines)
    ensures LinesFit(env.maxLine, HeadLines(start, lines))
  {
    hide LineFits, Render, LinesFit;
    var all := [start] + lines + [""];
    forall i | 0 <= i < |all| ensures LineFits(env, all[i]) {
      if 0 < i <= |lines| {
        assert all[i] == lines[i - 1];
      }
    }
    RenderedFits(env, all);
  }

  /** What a message leaves: its body handed out, and the message complete unless its body runs until close. */
  ghost predicate MessageWas(s: Parser, kind: BodyKind, body: string, o: Outcome<Parser>) {
    && o.rest == "" && BodyBytes(o.s.trace) == BodyBytes(s.trace) + body
    && (if kind.Identity?
        then o.s.phase.Body? && o.s.body.Identity? && Once.Completes(o.s.trace) == Once.Completes(s.trace)
        else o.s.phase.Start? && Once.Completes(o.s.trace) == Once.Completes(s.trace) + 1)
  }

  /** The body, after a head that announced it. */
  lemma {:induction false} BodyRead(env: Env, r: Parser, kind: BodyKind, n: nat, parts: seq<string>)
    requires HooksGo(env) && Sound(ParserMachine(env, Head(env))) && AtBody(r, kind, n)
    requires BodyFits(env, kind, n, parts)
    ensures var m, text := ParserMachine(env, Head(env)), BodyText(kind, parts);
      m.ok(r) && EdgeFree(m, r, text) && MessageWas(r, kind, Concat(parts), Exhaust(m, r, text))
  {
    hide Sound, EdgeFree, Exhaust, HooksGo, Step, BodyBytes, Once.Completes, Concat, AllChunks, AllFit;
    match kind
    case NoBody => {
      Completing(env, r);
      assert BodyBytes(r.trace) + "" == BodyBytes(r.trace);
    }
    case Identity => UntilCloseRead(env, r, Concat(parts));
    case Length => CountedRead(env, r, Concat(parts));
    case Chunked => ChunksRead(env, r, parts);
  }

  /** A chunked body, to the end of its last chunk. */
  lemma {:induction false} ChunksRead(env: Env, r: Parser, parts: seq<string>)
    requires HooksGo(env) && AtChunkSize(r) && AllFit(env, parts)
    ensures var m, text := ParserMachine(env, Head(env)), AllChunks(parts) + LAST_CHUNK;
      Sound(m) && m.ok(r) && EdgeFree(m, r, text) && MessageWas(r, Chunked, Concat(parts), Exhaust(m, r, text))
  {
    HeadIsOk(env);
    HeadEndsTrailers(env);
    hide Sound, EdgeFree, Exhaust, HooksGo, Step, BodyBytes, Once.Completes, Concat, AllChunks, AllFit, HeadOk,
      EndsTrailers, AfterAll;
    ReadWhole(env, Head(env), r, parts);
    BodyReadBack(r, parts);
    ChunksCompleteOne(r, parts);
  }

  /** Chunks complete one message. */
  lemma {:induction false} ChunksCompleteOne(p: Parser, parts: seq<string>)
    ensures Once.Completes(AfterAll(p, parts).trace) == Once.Completes(p.trace)
    ensures Once.Completes(Finished(AfterAll(p, parts)).trace) == Once.Completes(p.trace) + 1
    decreases |parts|
  {
    hide Once.Completes, AfterChunk;
    if parts != [] {
      var b := parts[0];
      if b != [] {
        OneChunkCompletes(p, b);
        ChunksCompleteOne(AfterChunk(p, b), parts[1..]);
      } else {
        ChunksCompleteOne(p, parts[1..]);
      }
    }
    var t := AfterAll(p, parts).trace;
    CompletesSnoc(t, ChunksComplete);
    CompletesSnoc(t + [ChunksComplete], MsgComplete);
  }

  lemma {:induction false} CompletesSnoc(t: seq<Event>, e: Event)
    ensures Once.Completes(t + [e]) == Once.Completes(t) + (if e.MsgComplete? then 1 else 0)
  {
    assert (t + [e])[..|t|] == t;
  }

  lemma {:induction false} OneChunkCompletes(p: Parser, b: string)
    ensures Once.Completes(AfterChunk(p, b).trace) == Once.Completes(p.trace)
  {
    hide Once.Completes;
    var t := p.trace;
    var t1 := t + [NewChunk(|b|)];
    var t2 := t1 + [BodyPiece(b)];
    CompletesSnoc(t, NewChunk(|b|));
    CompletesSnoc(t1, BodyPiece(b));
    CompletesSnoc(t2, ChunkComplete);
    assert t2 + [ChunkComplete] == t + [NewChunk(|b|), BodyPiece(b), ChunkComplete];
  }

  /** A message presented at once, between messages. */
  lemma {:induction false} WholeMessage(env: Env, s: Parser, msg: Message)
    requires HooksGo(env) && s.phase.Start? && Good(env, msg)
    ensures var m, text := ParserMachine(env, Head(env)), MessageText(msg);
      && Sound(m) && m.ok(s) && EdgeFree(m, s, text)
      && MessageWas(s, msg.kind, Concat(msg.parts), Exhaust(m, s, text))
  {
    hide Frames, Sound, Extends, Settled, EdgeFree, Exhaust, HooksGo, Step, HeadOk, LineFits, BodyBytes, Once.Completes,
      HeadLines, MessageWas, BodyHooksGo, BodyFits, BodyText, LinesAllFit, Concat;
    var body := BodyText(msg.kind, msg.parts);
    Machinery(env);
    HeadOffEdge(env, s, msg.start, msg.lines);
    var m, head := ParserMachine(env, Head(env)), HeadLines(msg.start, msg.lines);
    var r := HeadGone(env, s, msg.start, msg.lines, msg.kind, msg.length, body);
    BodyRead(env, r, msg.kind, msg.length, msg.parts);
    WasSince(s, r, msg.kind, Concat(msg.parts), Exhaust(m, r, body));
    if msg.kind.NoBody? {
      NoBodyText(env, msg.length, msg.parts);
      assert head + body == head;
    } else {
      Still(env, r);
      StreamsJoin(m, s, head, body);
    }
  }

  lemma {:induction false} NoBodyText(env: Env, n: nat, parts: seq<string>)
    requires BodyFits(env, NoBody, n, parts)
    ensures BodyText(NoBody, parts) == ""
  {
  }

  lemma {:induction false} WasSince(s: Parser, r: Parser, kind: BodyKind, body: string, o: Outcome<Parser>)
    requires Once.Same(s, r) && MessageWas(r, kind, body, o)
    ensures MessageWas(s, kind, body, o)
  {
    hide BodyBytes, Once.Completes;
  }

  // ---------------------------------------------------------------------------------------
  // Messages one after the other
  // ---------------------------------------------------------------------------------------

  function Texts(msgs: seq<Message>): string {
    if msgs == [] then "" else Texts(msgs[..|msgs| - 1]) + MessageText(msgs[|msgs| - 1])
  }

  function Bodies(msgs: seq<Message>): string {
    if msgs == [] then "" else Bodies(msgs[..|msgs| - 1]) + Concat(msgs[|msgs| - 1].parts)
  }

  /** Good messages, of which only the last may have a body that runs until close. */
  ghost predicate AllGood(env: Env, msgs: seq<Message>) {
    && (forall i :: 0 <= i < |msgs| ==> Good(env, msgs[i]))
    && (forall i :: 0 <= i < |msgs| - 1 ==> !msgs[i].kind.Identity?)
  }

  predicate LastIsOpen(msgs: seq<Message>) {
    msgs != [] && msgs[|msgs| - 1].kind.Identity?
  }

  /** What a sequence of messages leaves. */
  ghost predicate MessagesWere(msgs: seq<Message>, o: Outcome<Parser>) {
    && o.rest == "" && BodyBytes(o.s.trace) == Bodies(msgs)
    && (if LastIsOpen(msgs)
        then o.s.phase.Body? && o.s.body.Identity? && Once.Completes(o.s.trace) == |msgs| - 1
        else o.s.phase.Start? && Once.Completes(o.s.trace) == |msgs|)
  }

  lemma {:induction false} InitGood(env: Env, msgs: seq<Message>)
    requires AllGood(env, msgs) && msgs != []
    ensures AllGood(env, msgs[..|msgs| - 1]) && !LastIsOpen(msgs[..|msgs| - 1]) && Good(env, msgs[|msgs| - 1])
  {
    hide Good;
  }

  lemma {:induction false} MessagesAtOnce(env: Env, msgs: seq<Message>)
    requires HooksGo(env) && AllGood(env, msgs)
    ensures var m, text := ParserMachine(env, Head(env)), Texts(msgs);
      Sound(m) && m.ok(FRESH) && EdgeFree(m, FRESH, text) && MessagesWere(msgs, Exhaust(m, FRESH, text))
    decreases |msgs|
  {
    hide Sound, Extends, Settled, EdgeFree, Exhaust, HooksGo, Step, HeadOk, BodyBytes, Once.Completes, BodyHooksGo,
      Good, MessageText, Concat;
    Machinery(env);
    var m := ParserMachine(env, Head(env));
    if msgs == [] {
      Still(env, FRESH);
      NoTraceNoBody();
      NothingCompleted();
    } else {
      var init, msg := msgs[..|msgs| - 1], msgs[|msgs| - 1];
      InitGood(env, msgs);
      hide AllGood;
      MessagesAtOnce(env, init);
      var s := Exhaust(m, FRESH, Texts(init)).s;
      WholeMessage(env, s, msg);
      StreamsJoin(m, FRESH, Texts(init), MessageText(msg));
    }
  }

  lemma {:induction false} NothingCompleted()
    ensures Once.Completes([]) == 0
  {
  }

  /** A message begins with a parser that remembers nothing of those before it but what it told and how much it read. */
  lemma {:induction false} NothingCarriesOver(p: Parser)
    ensures Reset(p) == FRESH.(total := p.total, trace := p.trace)
  {
  }

  /** The end of the stream, after messages. */
  lemma {:induction false} EofAfter(env: Env, msgs: seq<Message>, o: Outcome<Parser>)
    requires HooksGo(env) && MessagesWere(msgs, o)
    ensures var q := AtEof(env, o.s);
      BodyBytes(q.trace) == Bodies(msgs) && q.phase.Start? && Once.Completes(q.trace) == |msgs|
  {
    hide BodyBytes, Once.Completes, HooksGo, Call, Bodies;
    GoingCall(env, o.s.(phase := Start), MsgComplete);
    Once.CallCompletes(env, o.s.(phase := Start), MsgComplete);
  }

  /**
   Messages one after the other on a connection, in whatever pieces they come and wherever the parser is paused:
   nothing is left over, the body hooks were handed exactly their bodies, and each message was told complete once;
   a last one whose body runs until close, when the stream ends and not before.
   */
  lemma {:induction false} MessagesAreRead(env: Env, msgs: seq<Message>, pause: nat -> bool, calls: nat,
                                           pieces: seq<string>)
    requires HooksGo(env) && AllGood(env, msgs) && Concat(pieces) == Texts(msgs)
    ensures var m := ParserMachine(env, Head(env));
      && Sound(m) && m.ok(FRESH)
      && var d := Feed(m, pause, Driven(FRESH, "", calls), pieces);
         var q := AtEof(env, d.s);
         && d.rest == "" && BodyBytes(q.trace) == Bodies(msgs) && q.phase.Start? && Once.Completes(q.trace) == |msgs|
         && Once.Completes(d.s.trace) == |msgs| - (if LastIsOpen(msgs) then 1 else 0)
  {
    var m, data := ParserMachine(env, Head(env)), Texts(msgs);
    HooksGoDeep(env);
    ParserSplitInvariance(env, data);
    hide Sound, EdgeFree, Exhaust, HooksGo, Step, BodyBytes, Once.Completes, CutsDoNotShow, Feed, AtEof, AllGood, Texts,
      Bodies;
    MessagesAtOnce(env, msgs);
    NotShown(m, data, pause, calls, pieces);
    EofAfter(env, msgs, Exhaust(m, FRESH, data));
  }
}
