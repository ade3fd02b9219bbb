/**
 A chunked reply as evhtp sends it, head and body, is read back by the parser as the bytes that were
 given to it, however the stream is cut and wherever the parser is paused.
 */
module ReplyRead {
  import opened Prelude
  import opened Text
  import opened Incremental
  import opened ParserSpec
  import opened ParserRuns
  import opened ParserFraming
  import opened ParserAcceptance
  import opened Numbers
  import opened ChunkWriter
  import opened ChunkRoundTrip
  import Once = ParserOnce
  import SL = StartLines

  // ---------------------------------------------------------------------------------------
  // Lines on the wire
  // ---------------------------------------------------------------------------------------

  /** How a head line is taken, its bytes and its CRLF counted. */
  function Counting(env: Env): LineTaker {
    (p: Parser, line: string) => HeadStep(env, p, line).(total := p.total + (|line| + 2))
  }

  lemma {:induction false} TotalApart(p: Parser, a: Facts, total: nat)
    requires Reflects(p, a)
    ensures Reflects(p.(total := total), a)
  {
  }

  lemma {:induction false} CountingTakesFields(env: Env)
    ensures TakesFields(env, Counting(env))
  {
    hide HeadStep, Reflects, SplitField;
    forall p: Parser, line: string, a: Facts
      | p.phase.Headers? && line != "" && Reflects(p, a) && !Counting(env)(p, line).phase.Failed?
      ensures TookField(env, p, line, a, Counting(env)(p, line))
    {
      HeadTakesField(env, p, line, a);
      TotalApart(HeadStep(env, p, line), AddFact(env, a, SplitField(line).value), p.total + (|line| + 2));
    }
  }

  lemma {:induction false} CountingAcceptsFields(env: Env)
    requires HooksGo(env)
    ensures AcceptsFields(env, Counting(env)) && FieldsDoNotSkip(Counting(env))
  {
    HeadAcceptsFields(env);
    OwnFieldsDoNotSkip(env);
    hide HeadStep, Reflects, SplitField, FieldFits, HooksGo;
    var head := Counting(env);
    forall p: Parser, line: string, a: Facts
      | p.phase.Headers? && line != "" && Reflects(p, a) && Room(env, p.headerCount + 1)
      ensures !head(p, line).phase.Failed? <==> SplitField(line).Some? && FieldFits(env, a, SplitField(line).value)
    {
      assert !Head(env)(p, line).phase.Failed? <==> SplitField(line).Some? && FieldFits(env, a, SplitField(line).value);
    }
    forall p: Parser, line: string | p.phase.Headers? && line != "" && Skipping !in p.flags
      ensures Skipping !in head(p, line).flags
    {
      assert Skipping !in Head(env)(p, line).flags;
    }
  }

  predicate LineFits(env: Env, line: string) {
    '\n' !in line && (env.maxLine == 0 || |line| + 1 <= env.maxLine)
  }

  /** The machine takes a line of the head. */
  lemma {:induction false} LineRead(env: Env, p: Parser, line: string, rest: string)
    requires Sound(ParserMachine(env, Head(env))) && InHead(p.phase) && LineFits(env, line)
    ensures var m, p' := ParserMachine(env, Head(env)), Counting(env)(p, line);
      m.ok(p) && m.ok(p') && Exhaust(m, p, line + CRLF + rest) == Exhaust(m, p', rest)
  {
    hide Step, HeadStep, Sound, TakeLine, Exhaust, IndexOf;
    var m, data := ParserMachine(env, Head(env)), line + CRLF + rest;
    TakeCrlf(env.maxLine, line, rest);
    HeadLineStep(env, p, data);
    ExhaustStep(m, p, data, Counting(env)(p, line), |line| + 2);
    assert data[|line| + 2..] == rest;
  }

  /** And then the field lines, one after the other. */
  lemma {:induction false} LinesRead(env: Env, p: Parser, lines: seq<string>, rest: string)
    requires Sound(ParserMachine(env, Head(env))) && TakesFields(env, Counting(env))
    requires p.phase.Headers? && Reflects(p, NO_FACTS) && !TakeHead(Counting(env), p, lines).phase.Failed?
    requires forall i :: 0 <= i < |lines| ==> lines[i] != "" && LineFits(env, lines[i])
    ensures var m, q := ParserMachine(env, Head(env)), TakeHead(Counting(env), p, lines);
      m.ok(p) && m.ok(q) && Exhaust(m, p, Render(lines) + rest) == Exhaust(m, q, rest)
    decreases |lines|
  {
    hide Step, HeadStep, Sound, Exhaust, Reflects, TakesFields, LineFits, Render;
    if lines == [] {
      RenderNothing();
      assert "" + rest == rest;
    } else {
      var init, line := lines[..|lines| - 1], lines[|lines| - 1];
      InHeaders(env, p, init);
      LinesRead(env, p, init, line + CRLF + rest);
      LineRead(env, TakeHead(Counting(env), p, init), line, rest);
      assert lines == init + [line];
      RenderSnoc(init, line);
      assert Render(init) + line + CRLF + rest == Render(init) + (line + CRLF + rest);
    }
  }

  lemma {:induction false} InHeaders(env: Env, p: Parser, lines: seq<string>)
    requires TakesFields(env, Counting(env)) && p.phase.Headers? && Reflects(p, NO_FACTS)
    requires !TakeHead(Counting(env), p, lines).phase.Failed? && forall i :: 0 <= i < |lines| ==> lines[i] != ""
    ensures TakeHead(Counting(env), p, lines).phase.Headers?
  {
    hide Reflects, TakesFields, FactsOf, FieldsOf;
    HeadReflects(env, Counting(env), p, lines);
  }

  // ---------------------------------------------------------------------------------------
  // The lines fit
  // ---------------------------------------------------------------------------------------

  lemma {:induction false} FitsAfter(max: nat, a: string, b: string)
    requires LinesFit(max, a) && LinesFit(max, b) && (a != [] ==> a[|a| - 1] == '\n')
    ensures LinesFit(max, a + b)
    decreases |a|
  {
    hide IndexOf;
    if a == [] {
      assert a + b == b;
    } else {
      var n := IndexOf(a, '\n');
      IndexOfExtends(a, b, '\n');
      assert n < |a|;
      assert (a + b)[n + 1..] == a[n + 1..] + b;
      FitsAfter(max, a[n + 1..], b);
    }
  }

  lemma {:induction false} LineAlone(env: Env, line: string)
    requires LineFits(env, line)
    ensures LinesFit(env.maxLine, line + CRLF)
  {
    var data := line + CRLF;
    assert forall j :: 0 <= j < |line| ==> data[j] == line[j];
    assert data[|line|] == '\r' && data[|line| + 1] == '\n';
    IndexOfUnique(data, '\n', |line| + 1);
    assert data[|line| + 2..] == [] && IndexOf([], '\n') == 0;
  }

  lemma {:induction false} RenderedFits(env: Env, lines: seq<string>)
    requires forall i :: 0 <= i < |lines| ==> LineFits(env, lines[i])
    ensures LinesFit(env.maxLine, Render(lines)) &&
      (lines != [] ==> Render(lines) != [] && Render(lines)[|Render(lines)| - 1] == '\n')
    decreases |lines|
  {
    if lines == [] {
      assert IndexOf([], '\n') == 0;
    } else {
      var init, line := lines[..|lines| - 1], lines[|lines| - 1];
      RenderedFits(env, init);
      hide LinesFit, LineFits;
      assert LineFits(env, line);
      LineAlone(env, line);
      FitsAfter(env.maxLine, Render(init), line + CRLF);
      assert Render(lines) == Render(init) + (line + CRLF);
    }
  }

  // ---------------------------------------------------------------------------------------
  // Status line and fields
  // ---------------------------------------------------------------------------------------

  lemma {:induction false} CodeDigits(code: nat)
    requires 100 <= code <= 999
    ensures Numeral(code) == SL.CodeOf(code)
  {
    assert Numeral(code) == Numeral(code / 10) + [DigitChar(code % 10)];
    assert Numeral(code / 10) == Numeral(code / 10 / 10) + [DigitChar(code / 10 % 10)];
    hide SL.CodeOf, Decimal, Digits;
    SL.CodeIs(Numeral(code));
  }

  /** The version a reply is sent with: the request's, or 1.0 where that is not known. */
  function SentMajor(t: Terms): nat {
    if t.proto.OtherProto? then 1 else t.major
  }

  function SentMinor(t: Terms): nat {
    if t.proto.OtherProto? then 0 else t.minor
  }

  lemma {:induction false} VersionSent(t: Terms)
    requires 0 < t.major < 10 && t.minor < 10
    ensures VersionText(t) == SL.VersionOf(SentMajor(t), SentMinor(t))
  {
    SL.DigitIs(DigitChar(SentMajor(t)), SentMajor(t));
    SL.DigitIs(DigitChar(SentMinor(t)), SentMinor(t));
    assert "HTTP/1.0" == "HTTP/" + ['1', '.', '0'];
  }

  /** A status line as it is sent is one: of the version and the code it was sent with. */
  lemma {:induction false} StatusSent(t: Terms, code: nat, reason: string)
    requires 0 < t.major < 10 && t.minor < 10 && 100 <= code <= 999
    ensures SL.StatusWords(StatusText(t, code, reason), SentMajor(t), SentMinor(t), code)
  {
    VersionSent(t);
    CodeDigits(code);
    hide Numeral, SL.VersionOf, SL.CodeOf, VersionText;
    var line, start := StatusText(t, code, reason), SL.VersionOf(SentMajor(t), SentMinor(t)) + " " + SL.CodeOf(code);
    assert line == start + " " + reason;
    assert line[|start|] == ' ';
  }

  /** And is read so. */
  lemma {:induction false} StatusRead(p: Parser, t: Terms, code: nat, reason: string)
    requires 0 < t.major < 10 && t.minor < 10 && 100 <= code <= 999
    ensures StatusLine(p, StatusText(t, code, reason)) ==
      p.(major := SentMajor(t), minor := SentMinor(t), status := code)
  {
    StatusSent(t, code, reason);
    SL.StatusLineRead(p, StatusText(t, code, reason), SentMajor(t), SentMinor(t), code);
  }

  /** A field that can be sent on a line of its own. */
  predicate Sendable(h: Header) {
    && h.0 != "" && ':' !in h.0 && '\n' !in h.0 && !Blank(h.0[0]) && !Blank(h.0[|h.0| - 1])
    && '\n' !in h.1
  }

  /** The field as the parser reads it. */
  function ReadField(h: Header): Field {
    (h.0, TrimRight(TrimLeft(" " + h.1)))
  }

  function ReadFields(headers: seq<Header>): seq<Field> {
    seq(|headers|, i requires 0 <= i < |headers| => ReadField(headers[i]))
  }

  lemma {:induction false} FieldRead(h: Header)
    requires Sendable(h)
    ensures FieldText(h) != "" && SplitField(FieldText(h)) == Some(ReadField(h)) && '\n' !in FieldText(h)
  {
    var line := FieldText(h);
    var n := |h.0|;
    assert forall j :: 0 <= j < n ==> line[j] == h.0[j];
    assert line[n] == ':';
    IndexOfUnique(line, ':', n);
    assert line[..n] == h.0 && line[n + 1..] == " " + h.1;
  }

  lemma {:induction false} FieldsRead(headers: seq<Header>)
    requires forall h :: h in headers ==> Sendable(h)
    ensures AllFields(FieldTexts(headers)) && FieldsOf(FieldTexts(headers)) == ReadFields(headers)
  {
    hide Sendable, SplitField, FieldText, ReadField;
    forall i | 0 <= i < |headers|
      ensures FieldText(headers[i]) != "" && SplitField(FieldText(headers[i])) == Some(ReadField(headers[i]))
    {
      FieldRead(headers[i]);
    }
  }

  // ---------------------------------------------------------------------------------------
  // The whole head
  // ---------------------------------------------------------------------------------------

  /** A head that goes out whole: every line fits, and there are not too many. */
  predicate HeadFits(env: Env, status: string, headers: seq<Header>) {
    && LineFits(env, status) && Room(env, |headers|)
    && forall h :: h in headers ==> LineFits(env, FieldText(h))
  }

  /** A head that announces chunks: a code with a body, and chunked named once and last. */
  ghost predicate Announces(env: Env, t: Terms, code: nat, headers: seq<Header>) {
    && 0 < t.major < 10 && t.minor < 10 && 200 <= code <= 999 && code != 204 && code != 304
    && (forall h :: h in headers ==> Sendable(h))
    && Acceptable(env, ReadFields(headers))
    && FactsOf(env, ReadFields(headers)).hasCoding
    && ChunkedOnceAndLast(FactsOf(env, ReadFields(headers)).codings)
  }

  /** What the start line leaves: a response with this status, and nothing said yet. */
  ghost predicate Started(env: Env, p: Parser, code: nat) {
    && p.phase.Headers? && p.status == code && p.headerCount == 0 && Skipping !in p.flags
    && Reflects(p, NO_FACTS) && BodyBytes(p.trace) == []
  }

  /** What a status line does, with hooks that go. */
  lemma {:induction false} StatusTaken(env: Env, p: Parser, line: string)
    requires HooksGo(env) && env.kind.Response? && p.phase.HeadLine? && !StatusLine(p, line).phase.Failed?
    ensures var q, s := HeadStep(env, p, line), StatusLine(p, line); q.phase.Headers? && q.status == s.status
  {
    hide RequestLine, StatusLine, Call, HooksGo;
    GoingCall(env, StatusLine(p, line).(phase := Headers), HdrsBegin);
  }

  /** A message has begun: nothing was handed out. */
  lemma {:induction false} BegunRead(env: Env, s: Parser)
    requires HooksGo(env)
    ensures var p := Begins(env, s); p.phase.HeadLine? && Reflects(p, NO_FACTS) && Once.Same(s, p)
  {
    hide Reflects, BodyBytes, Once.Completes, HooksGo, Call;
    GoingCall(env, Reset(s).(phase := HeadLine), MsgBegin);
    BeginsReflects(env, s);
    Once.BeginsSame(env, s);
  }

  lemma {:induction false} StartRead(env: Env, t: Terms, code: nat, reason: string)
    requires HooksGo(env) && env.kind.Response? && 0 < t.major < 10 && t.minor < 10 && 100 <= code <= 999
    ensures Begins(env, FRESH).phase.HeadLine?
    ensures Started(env, Counting(env)(Begins(env, FRESH), StatusText(t, code, reason)), code)
  {
    hide HeadStep, StatusLine, Reflects, BodyBytes, StatusText, Begins, HooksGo, Once.Completes;
    var p, line := Begins(env, FRESH), StatusText(t, code, reason);
    BegunRead(env, FRESH);
    NoTraceNoBody();
    StatusRead(p, t, code, reason);
    StatusTaken(env, p, line);
    StartCounts(env, FRESH, line);
    StartLineReflects(env, p, line);
    TotalApart(HeadStep(env, p, line), NO_FACTS, p.total + (|line| + 2));
    Once.HeadSame(env, p, line);
  }

  lemma {:induction false} NoTraceNoBody()
    ensures BodyBytes([]) == []
  {
  }

  lemma {:induction false} HeadBodyless(env: Env, p: Parser, lines: seq<string>)
    ensures BodyBytes(TakeHead(Counting(env), p, lines).trace) == BodyBytes(p.trace)
    decreases |lines|
  {
    hide HeadStep, BodyBytes, Once.Completes;
    if lines != [] {
      var init := lines[..|lines| - 1];
      HeadBodyless(env, p, init);
      Once.HeadSame(env, TakeHead(Counting(env), p, init), lines[|lines| - 1]);
    }
  }

  /** The blank line after a head that announces chunks. */
  lemma {:induction false} BlankRead(env: Env, p: Parser, a: Facts)
    requires HooksGo(env) && env.kind.Response? && p.phase.Headers? && Reflects(p, a) && Skipping !in p.flags
    requires p.status >= 200 && p.status != 204 && p.status != 304 && a.hasCoding && ChunkedOnceAndLast(a.codings)
    ensures AtChunkSize(Counting(env)(p, ""))
    ensures BodyBytes(Counting(env)(p, "").trace) == BodyBytes(p.trace)
  {
    Once.HeadSame(env, p, "");
    FramingFollowsRule(env.kind, p, a);
    ChunkedPlaces(a.codings);
    hide BodyOf, Reflects, Once.Completes, BodyBytes, Call;
    var p1 := Framing(env, p);
    GoingCall(env, p1.(phase := Body), HdrsComplete(p1.body, p1.origContentLen));
  }

  /** What the fields leave. */
  lemma {:induction false} FieldsTaken(env: Env, p: Parser, t: Terms, code: nat, headers: seq<Header>)
    requires HooksGo(env) && Started(env, p, code) && Announces(env, t, code, headers) && Room(env, |headers|)
    ensures TakesFields(env, Counting(env))
    ensures var q := TakeHead(Counting(env), p, FieldTexts(headers));
      && q.phase.Headers? && q.status == code && Skipping !in q.flags && BodyBytes(q.trace) == []
      && Reflects(q, FactsOf(env, ReadFields(headers)))
  {
    CountingTakesFields(env);
    CountingAcceptsFields(env);
    FieldsRead(headers);
    hide Reflects, TakesFields, AcceptsFields, FieldsDoNotSkip, FactsOf, FieldsOf, Acceptable, BodyBytes, Sendable,
      HooksGo;
    var lines := FieldTexts(headers);
    HeadAccepted(env, Counting(env), p, lines);
    HeadReflects(env, Counting(env), p, lines);
    HeadDoesNotSkip(env, Counting(env), p, lines);
    HeadBodyless(env, p, lines);
  }

  /** The bytes of a start line, fields and a blank line, as the machine goes through them. */
  lemma {:induction false} HeadRuns(
    env: Env, s: Parser, start: string, lines: seq<string>, p: Parser, q: Parser, rest: string)
    requires Sound(ParserMachine(env, Head(env))) && TakesFields(env, Counting(env)) && s.phase.Start?
    requires start != "" && start[0] != '\r' && start[0] != '\n' && LineFits(env, start) && LineFits(env, "")
    requires forall i :: 0 <= i < |lines| ==> lines[i] != "" && LineFits(env, lines[i])
    requires Begins(env, s).phase.HeadLine? && p == Counting(env)(Begins(env, s), start)
    requires p.phase.Headers? && Reflects(p, NO_FACTS) && q == TakeHead(Counting(env), p, lines) && q.phase.Headers?
    ensures var m, data := ParserMachine(env, Head(env)), start + CRLF + (Render(lines) + ("" + CRLF + rest));
      m.ok(s) && m.ok(Counting(env)(q, "")) && Exhaust(m, s, data) == Exhaust(m, Counting(env)(q, ""), rest)
  {
    hide HeadStep, Sound, Exhaust, Reflects, TakesFields, LineFits, Begins, Render, Step;
    var m := ParserMachine(env, Head(env));
    var more := Render(lines) + ("" + CRLF + rest);
    var data := start + CRLF + more;
    assert data[0] == start[0];
    BeginStep(env, s, data);
    ExhaustStep(m, s, data, Begins(env, s), 0);
    assert data[0..] == data;
    LineRead(env, Begins(env, s), start, more);
    LinesRead(env, p, lines, "" + CRLF + rest);
    LineRead(env, q, "", rest);
  }

  lemma {:induction false} SizeWaits(env: Env, p: Parser)
    requires Sound(ParserMachine(env, Head(env))) && AtChunkSize(p)
    ensures ParserMachine(env, Head(env)).ok(p) && Exhaust(ParserMachine(env, Head(env)), p, "") == Outcome(p, "")
  {
    hide Sound;
    AtRest(env, Head(env), p);
  }

  /** The parser takes such a head, from a fresh start, to its first chunk size, and nothing of the body yet. */
  lemma {:induction false} HeadRead(env: Env, t: Terms, code: nat, reason: string, headers: seq<Header>)
    requires HooksGo(env) && env.kind.Response? && Announces(env, t, code, headers)
    requires HeadFits(env, StatusText(t, code, reason), headers)
    ensures Sound(ParserMachine(env, Head(env)))
    ensures var o := Exhaust(ParserMachine(env, Head(env)), FRESH, HeadText(t, code, reason, headers));
      AtChunkSize(o.s) && o.rest == "" && BodyBytes(o.s.trace) == []
  {
    HeadIsOk(env);
    MachineSound(env, Head(env));
    var status, lines := StatusText(t, code, reason), FieldTexts(headers);
    StatusStarts(t, code, reason);
    LinesAreFit(env, headers);
    hide HeadStep, Sound, Exhaust, Reflects, TakesFields, Begins, Render, Step, FactsOf, BodyBytes, StatusText,
      HeadText, HooksGo, Acceptable, Sendable, HeadOk, FieldText;
    StartRead(env, t, code, reason);
    var p := Counting(env)(Begins(env, FRESH), status);
    FieldsTaken(env, p, t, code, headers);
    var q := TakeHead(Counting(env), p, lines);
    BlankRead(env, q, FactsOf(env, ReadFields(headers)));
    HeadRuns(env, FRESH, status, lines, p, q, "");
    SizeWaits(env, Counting(env)(q, ""));
    HeadTextIs(t, code, reason, headers);
  }

  lemma {:induction false} StatusStarts(t: Terms, code: nat, reason: string)
    requires 0 < t.major < 10 && t.minor < 10
    ensures StatusText(t, code, reason) != "" && StatusText(t, code, reason)[0] == 'H'
  {
    assert StatusText(t, code, reason)[0] == VersionText(t)[0];
  }

  lemma {:induction false} LinesAreFit(env: Env, headers: seq<Header>)
    requires forall h :: h in headers ==> Sendable(h) && LineFits(env, FieldText(h))
    ensures var lines := FieldTexts(headers); forall i :: 0 <= i < |lines| ==> lines[i] != "" && LineFits(env, lines[i])
  {
    hide LineFits;
    forall i | 0 <= i < |headers| ensures FieldText(headers[i]) != "" {
      FieldRead(headers[i]);
    }
  }

  /** The bytes of a head, line by line. */
  lemma {:induction false} HeadTextIs(t: Terms, code: nat, reason: string, headers: seq<Header>)
    requires t.major < 10 && t.minor < 10
    ensures HeadText(t, code, reason, headers) ==
      StatusText(t, code, reason) + CRLF + (Render(FieldTexts(headers)) + ("" + CRLF + ""))
  {
    hide StatusText, FieldTexts, Render;
    var status, lines := StatusText(t, code, reason), FieldTexts(headers);
    RenderSnoc([status] + lines, "");
    RenderCons(status, lines);
  }

  lemma {:induction false} RenderCons(line: string, lines: seq<string>)
    ensures Render([line] + lines) == line + CRLF + Render(lines)
    decreases |lines|
  {
    hide Render;
    if lines == [] {
      RenderSnoc([], line);
      RenderNothing();
      assert [line] + lines == [] + [line];
    } else {
      var init, last := lines[..|lines| - 1], lines[|lines| - 1];
      RenderCons(line, init);
      assert init + [last] == lines;
      assert [line] + lines == ([line] + init) + [last];
      RenderSnoc(init, last);
      RenderSnoc([line] + init, last);
      Regroup(line + CRLF, Render(init), last + CRLF);
    }
  }

  lemma {:induction false} Regroup(a: string, b: string, c: string)
    ensures (a + b) + c == a + (b + c)
  {
  }

  // ---------------------------------------------------------------------------------------
  // Head and body
  // ---------------------------------------------------------------------------------------

  lemma {:induction false} HeadIsTaken(env: Env, t: Terms, code: nat, reason: string, headers: seq<Header>)
    requires HooksGo(env) && env.kind.Response? && Announces(env, t, code, headers)
    requires HeadFits(env, StatusText(t, code, reason), headers)
    ensures TakenToChunks(env, HeadText(t, code, reason, headers))
  {
    HeadRead(env, t, code, reason, headers);
    HeadIsOk(env);
    LinesAreFit(env, headers);
    hide Exhaust, Announces, StatusText, HooksGo, HeadOk, EdgeFree, Sound, Render, LinesFit, FieldText;
    var lines := [StatusText(t, code, reason)] + FieldTexts(headers) + [""];
    forall i | 0 <= i < |lines| ensures LineFits(env, lines[i]) {
      EveryLineFits(env, StatusText(t, code, reason), headers, i);
    }
    RenderedFits(env, lines);
    HooksGoDeep(env);
    FittingIsEdgeFree(env, Head(env), FRESH, HeadText(t, code, reason, headers));
  }

  lemma {:induction false} EveryLineFits(env: Env, status: string, headers: seq<Header>, i: nat)
    requires HeadFits(env, status, headers) && i < |headers| + 2
    ensures LineFits(env, ([status] + FieldTexts(headers) + [""])[i])
  {
    if 0 < i <= |headers| {
      assert headers[i - 1] in headers;
    }
  }

  /**
   Whatever chunked reply is sent, its body is read back: from a fresh response parser, the stream cut
   anywhere and the parser paused anywhere, what was buffered and what was sent in chunks is exactly what
   the body hooks are handed, and the message completes with nothing left over.
   */
  lemma {:induction false} SentReplyIsRead(
    env: Env, t: Terms, code: nat, reason: string, headers: seq<Header>, body: string, bufs: seq<string>,
    pause: nat -> bool, calls: nat, pieces: seq<string>)
    requires HooksGo(env) && env.kind.Response? && Announces(env, t, code, SentFields(t, headers))
    requires HeadFits(env, StatusText(t, code, reason), SentFields(t, headers)) && AllFit(env, [body] + bufs)
    requires Concat(pieces) == HeadText(t, code, reason, SentFields(t, headers)) + AllChunks([body] + bufs) + LAST_CHUNK
    ensures var m := ParserMachine(env, Head(env));
      && Sound(m) && m.ok(FRESH)
      && var d := Feed(m, pause, Driven(FRESH, "", calls), pieces);
         d.s.phase.Start? && d.rest == "" && BodyBytes(d.s.trace) == body + Concat(bufs)
  {
    var head := HeadText(t, code, reason, SentFields(t, headers));
    hide HooksGo, Announces, HeadFits, AllFit, HeadText, AllChunks, SentFields, Exhaust, Feed, Sound, AfterAll,
      BodyBytes, TakenToChunks, Step;
    HeadIsTaken(env, t, code, reason, SentFields(t, headers));
    HeadRead(env, t, code, reason, SentFields(t, headers));
    ReplyRoundTrip(env, head, body, bufs, pause, calls, pieces);
    var p := Exhaust(ParserMachine(env, Head(env)), FRESH, head).s;
    BodyReadBack(p, [body] + bufs);
    assert ([body] + bufs)[1..] == bufs;
  }

  // ---------------------------------------------------------------------------------------
  // The fields evhtp sends announce chunks
  // ---------------------------------------------------------------------------------------

  /** The little that is asked of the string library. */
  ghost predicate KnowsChunked(env: Env) {
    && env.equalsI("Transfer-Encoding", "Transfer-Encoding")
    && env.equalsI("chunked", "chunked") && env.elements("chunked") == ["chunked"]
  }

  /** No field of the application's own is a Transfer-Encoding. */
  ghost predicate NoCodings(env: Env, headers: seq<Header>) {
    forall h :: h in headers ==> !CodingField(env, ReadField(h))
  }

  lemma {:induction false} FieldsWithoutCodings(env: Env, headers: seq<Header>)
    requires NoCodings(env, headers)
    ensures CodingFields(env, ReadFields(headers)) == []
    decreases |headers|
  {
    hide CodingField, ReadField;
    if headers != [] {
      var init, h := headers[..|headers| - 1], headers[|headers| - 1];
      FieldsWithoutCodings(env, init);
      assert ReadFields(headers) == ReadFields(init) + [ReadField(h)];
      assert h in headers;
      CodingFieldsSnoc(env, ReadFields(init), ReadField(h));
    }
  }

  lemma {:induction false} CodingFieldsJoin(env: Env, a: seq<Field>, b: seq<Field>)
    ensures CodingFields(env, a + b) == CodingFields(env, a) + CodingFields(env, b)
    decreases |b|
  {
    hide CodingField;
    if b == [] {
      assert a + b == a;
    } else {
      var init, f := b[..|b| - 1], b[|b| - 1];
      assert a + b == (a + init) + [f] && b == init + [f];
      CodingFieldsSnoc(env, a + init, f);
      CodingFieldsSnoc(env, init, f);
      CodingFieldsJoin(env, a, init);
    }
  }

  lemma {:induction false} KeptAreGiven(name: string, headers: seq<Header>)
    ensures forall h :: h in WithoutFirst(name, headers) ==> h in headers
  {
    hide KeyIs;
    if headers != [] && !KeyIs(headers[0], name) {
      KeptAreGiven(name, headers[1..]);
    }
  }

  /** What follows the Transfer-Encoding field: Connection and Content-Type, perhaps. */
  lemma {:induction false} SentFieldsAre(t: Terms, headers: seq<Header>) returns (more: seq<Header>)
    ensures SentFields(t, headers) == WithoutFirst(CONTENT_LENGTH, headers) + [TE_CHUNKED] + more
    ensures forall h :: h in more ==> |h.0| != 17 && |h.0| != 14 && Sendable(h)
  {
    var kept := ChunkedFields(headers);
    hide WithoutFirst, HasField;
    var c: seq<Header> := match t.proto
      case Http11 => if t.keepAlive then [] else [("Connection", "close")]
      case Http10 => if t.keepAlive then [("Connection", "keep-alive")] else []
      case OtherProto => [];
    var ct: seq<Header> := if HasField(kept, CONTENT_TYPE) then [] else [(CONTENT_TYPE, "text/plain")];
    more := c + ct;
    assert WithConnection(t, true, kept) == kept + c;
    assert SentFields(t, headers) == kept + c + ct;
  }

  lemma {:induction false} ChunkedIsRead(env: Env)
    requires KnowsChunked(env)
    ensures ReadField(TE_CHUNKED) == TE_CHUNKED && Sendable(TE_CHUNKED) && CodingField(env, TE_CHUNKED)
    ensures CodingsOf(env, "chunked") == [ChunkedCoding]
  {
    assert (" " + "chunked")[1..] == "chunked";
    assert TrimLeft(" " + "chunked") == "chunked" && TrimRight("chunked") == "chunked";
    assert env.elements("chunked")[0] == "chunked";
  }

  lemma {:induction false} OneCoding(env: Env, fields: seq<Field>)
    requires KnowsChunked(env) && CodingFields(env, fields) == [TE_CHUNKED]
    ensures var a := FactsOf(env, fields); a.hasCoding && ChunkedOnceAndLast(a.codings)
  {
    CodingsFactored(env, fields);
    ChunkedIsRead(env);
    FactsSnoc(env, [], TE_CHUNKED);
    assert [] + [TE_CHUNKED] == [TE_CHUNKED];
    assert FactsOf(env, []) == NO_FACTS;
    assert [] + CodingsOf(env, "chunked") == [ChunkedCoding];
  }

  lemma {:induction false} SentCodings(env: Env, t: Terms, headers: seq<Header>)
    requires KnowsChunked(env) && NoCodings(env, headers)
    ensures CodingFields(env, ReadFields(SentFields(t, headers))) == [TE_CHUNKED]
  {
    hide WithoutFirst, SentFields, ReadFields, CodingFields, ReadField, Sendable;
    var kept := WithoutFirst(CONTENT_LENGTH, headers);
    var more := SentFieldsAre(t, headers);
    KeptAreGiven(CONTENT_LENGTH, headers);
    OtherNames(env, more);
    AroundChunked(env, kept, more);
  }

  lemma {:induction false} OtherNames(env: Env, headers: seq<Header>)
    requires forall h :: h in headers ==> |h.0| != 17
    ensures NoCodings(env, headers)
  {
  }

  lemma {:induction false} AroundChunked(env: Env, before: seq<Header>, after: seq<Header>)
    requires KnowsChunked(env) && NoCodings(env, before) && NoCodings(env, after)
    ensures CodingFields(env, ReadFields(before + [TE_CHUNKED] + after)) == [TE_CHUNKED]
  {
    hide ReadField, CodingField, NoCodings, CodingFields, KnowsChunked, ReadFields, CodingsOf, Sendable;
    ChunkedIsRead(env);
    FieldsWithoutCodings(env, before);
    FieldsWithoutCodings(env, after);
    ReadFieldsJoin(before + [TE_CHUNKED], after);
    ReadFieldsJoin(before, [TE_CHUNKED]);
    ReadFieldsOne(TE_CHUNKED);
    CodingFieldsSnoc(env, ReadFields(before), TE_CHUNKED);
    CodingFieldsJoin(env, ReadFields(before) + [TE_CHUNKED], ReadFields(after));
  }

  lemma {:induction false} ReadFieldsJoin(a: seq<Header>, b: seq<Header>)
    ensures ReadFields(a + b) == ReadFields(a) + ReadFields(b)
  {
    hide ReadField;
  }

  lemma {:induction false} ReadFieldsOne(h: Header)
    ensures ReadFields([h]) == [ReadField(h)]
  {
    hide ReadField;
  }

  /**
   The fields a chunked reply is sent with announce chunks, whatever fields the application set: fields
   that fit on lines, none of them a Transfer-Encoding, and any Content-Length left agreeing.
   */
  lemma {:induction false} SentFieldsAnnounce(env: Env, t: Terms, code: nat, headers: seq<Header>)
    requires KnowsChunked(env) && NoCodings(env, headers) && (forall h :: h in headers ==> Sendable(h))
    requires 0 < t.major < 10 && t.minor < 10 && 200 <= code <= 999 && code != 204 && code != 304
    requires Acceptable(env, ReadFields(SentFields(t, headers)))
    ensures Announces(env, t, code, SentFields(t, headers))
  {
    SentCodings(env, t, headers);
    OneCoding(env, ReadFields(SentFields(t, headers)));
    var more := SentFieldsAre(t, headers);
    KeptAreGiven(CONTENT_LENGTH, headers);
    ChunkedIsRead(env);
    hide WithoutFirst, ReadFields, Sendable, Acceptable, FactsOf;
  }
}
