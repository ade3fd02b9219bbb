/**
 What the parser refuses and what it says of it: lines and their limits, the limits on fields and on empty lines,
 the error of every refusal, and that a failure is blamed on the hooks exactly when a hook failed.
 */
module ParserRefusals {
  import opened Prelude
  import opened Text
  import opened Incremental
  import opened ParserSpec
  import opened StartLines
  import opened ParserRuns
  import opened ParserFraming

  // ---------------------------------------------------------------------------------------
  // Lines
  // ---------------------------------------------------------------------------------------

  /** The stream begins with this line: its text and how it ends, in CRLF or in LF alone. */
  predicate BeginsWithLine(data: string, text: string, ending: string) {
    && '\n' !in text && text + ending <= data
    && (ending == "\r\n" || (ending == "\n" && (text == "" || text[|text| - 1] != '\r')))
  }

  /** The first line is taken without its ending, if its text is not longer than allowed. */
  lemma {:induction false} LineTaken(max: nat, data: string, text: string, ending: string)
    requires BeginsWithLine(data, text, ending)
    ensures TakeLine(max, data) ==
      if max == 0 || |text| <= max then Line(text, |text| + |ending|) else TooLong
  {
    var n := |text + ending| - 1;
    assert data[..n + 1] == text + ending;
    assert forall i :: 0 <= i <= n ==> data[i] == (text + ending)[i];
    assert forall i :: 0 <= i < |text| ==> data[i] == text[i] && text[i] in text;
    IndexOfUnique(data, '\n', n);
    assert data[..|text|] == text;
  }

  /** A stream with an LF begins with a line; one without is not complete, or already too long. */
  lemma {:induction false} LineOrNot(max: nat, data: string)
    ensures '\n' in data ==> exists text, ending :: BeginsWithLine(data, text, ending)
    ensures '\n' !in data ==> TakeLine(max, data) == if max > 0 && |data| > max then TooLong else NoLine
  {
    var n := IndexOf(data, '\n');
    if n < |data| {
      if n > 0 && data[n - 1] == '\r' {
        assert data[..n - 1] + "\r\n" == data[..n + 1];
        assert BeginsWithLine(data, data[..n - 1], "\r\n");
      } else {
        assert data[..n] + "\n" == data[..n + 1];
        assert BeginsWithLine(data, data[..n], "\n");
      }
    } else {
      assert data[..n] == data;
    }
  }

  // ---------------------------------------------------------------------------------------
  // Blaming the hooks
  // ---------------------------------------------------------------------------------------

  /** The last hook that was told something failed. */
  ghost predicate HookFailed(env: Env, p: Parser) {
    p.trace != [] && env.verdict(p.trace).Fail?
  }

  /** A parser has failed with the user error exactly if its last hook failed, and goes on only if it did not. */
  ghost predicate Honest(env: Env, p: Parser) {
    HookFailed(env, p) <==> p.phase.Failed? && p.error.UserError?
  }

  ghost predicate Going(env: Env, p: Parser) {
    !p.phase.Failed? && !HookFailed(env, p)
  }

  lemma {:induction false} CallHonest(env: Env, p: Parser, e: Event)
    requires !p.phase.Failed?
    ensures Honest(env, Call(env, p, e)) && (!Call(env, p, e).phase.Failed? ==> Going(env, Call(env, p, e)))
  {
  }

  lemma {:induction false} CallAllHonest(env: Env, p: Parser, events: seq<Event>)
    requires Going(env, p)
    ensures Honest(env, CallAll(env, p, events))
    ensures !CallAll(env, p, events).phase.Failed? ==> Going(env, CallAll(env, p, events))
    decreases |events|
  {
    if events != [] {
      CallHonest(env, p, events[0]);
      hide Call, HookFailed;
      if !Call(env, p, events[0]).phase.Failed? {
        CallAllHonest(env, Call(env, p, events[0]), events[1..]);
      }
    }
  }

  lemma {:induction false} TargetHonest(env: Env, p: Parser, m: string, t: string)
    requires Going(env, p) && t != ""
    ensures Honest(env, MethodAndTarget(env, p, m, t))
    ensures !MethodAndTarget(env, p, m, t).phase.Failed? ==> Going(env, MethodAndTarget(env, p, m, t))
  {
    CallHonest(env, p, MethodIs(m));
    hide Call, CallAll, TargetEvents, TargetScheme;
    var p1 := Call(env, p, MethodIs(m));
    var own := t[0] == '/' || t == "*";
    var u := if own then BadUri else env.uri(t, p1.method_ == "CONNECT");
    if !p1.phase.Failed? {
      CallAllHonest(env, p1.(scheme := TargetScheme(env, t, u)), TargetEvents(t, u));
    }
  }

  lemma {:induction false} StartLineHonest(env: Env, p: Parser, line: string)
    requires Going(env, p)
    ensures Honest(env, StartLine(env, p, line))
  {
    hide MethodAndTarget, Version, NextToken, MethodName, Call, Decimal, Digits;
    if env.kind.Request? {
      TokensRead(env, p, line);
      var (m, t, v, rest) := Tokens(line);
      if t != "" && Version(v).Some? {
        var (major, minor) := Version(v).value;
        TargetHonest(env, p.(method_ := MethodName(m), major := major, minor := minor), m, t);
      }
      hide RequestLine, Tokens;
      var p1 := RequestLine(env, p, line);
      if !p1.phase.Failed? {
        CallHonest(env, p1.(phase := Headers), HdrsBegin);
      }
    } else {
      var p1 := StatusLine(p, line);
      if !p1.phase.Failed? {
        CallHonest(env, p1.(phase := Headers), HdrsBegin);
      }
    }
  }

  lemma {:induction false} NoteLengthsHonest(env: Env, p: Parser, lengths: seq<string>)
    requires Going(env, p)
    ensures var q := NoteLengths(p, lengths); Honest(env, q) && (!q.phase.Failed? ==> Going(env, q))
    decreases |lengths|
  {
    hide ParseU64;
    if lengths != [] && !NoteOneLength(p, lengths[0]).phase.Failed? {
      NoteLengthsHonest(env, NoteOneLength(p, lengths[0]), lengths[1..]);
    }
  }

  lemma {:induction false} NoteFieldHonest(env: Env, p: Parser, name: string, value: string)
    requires Going(env, p)
    ensures var q := NoteField(env, p, name, value); Honest(env, q) && (!q.phase.Failed? ==> Going(env, q))
  {
    hide Call, NoteTokens, NoteCodings, NoteLengths, TokensOf, CodingsOf, Multipart;
    CallHonest(env, p.(flags := p.flags + {HaveHost}), Hostname(value));
    NoteLengthsHonest(env, p, env.elements(value));
  }

  lemma {:induction false} HeaderLineHonest(env: Env, p: Parser, line: string, trailer: bool)
    requires Going(env, p)
    ensures Honest(env, HeaderLine(env, p, line, trailer))
  {
    hide Call, NoteField, SplitField;
    if SplitField(line).Some? {
      var (name, value) := SplitField(line).value;
      var p1 := Call(env, p, HdrKey(name));
      CallHonest(env, p, HdrKey(name));
      if !p1.phase.Failed? {
        NoteFieldHonest(env, p1, name, value);
        var p2 := if trailer then p1 else NoteField(env, p1, name, value);
        if !p2.phase.Failed? {
          CallHonest(env, p2, HdrVal(value));
        }
      }
    }
  }

  lemma {:induction false} HeadStepHonest(env: Env, p: Parser, line: string)
    requires Going(env, p)
    ensures Honest(env, HeadStep(env, p, line))
  {
    hide StartLine, HeaderLine, EndOfHead;
    StartLineHonest(env, p, line);
    HeaderLineHonest(env, p.(headerCount := p.headerCount + 1), line, p.phase.Trailers?);
    EndOfHeadHonest(env, p);
  }

  lemma {:induction false} EndOfHeadHonest(env: Env, p: Parser)
    requires Going(env, p)
    ensures Honest(env, EndOfHead(env, p))
  {
    hide Call, BodyOf;
    var p1 := Framing(env, p);
    if !p1.phase.Failed? {
      var p2 := p1.(phase := if p1.body.NoBody? then Complete else Body);
      CallHonest(env, p2, HdrsComplete(p1.body, p1.origContentLen));
    }
  }

  lemma {:induction false} BodyHonest(env: Env, p: Parser, data: string)
    requires Going(env, p) && p.phase.Body? && BodyStep(env, p, data).Did?
    ensures Honest(env, BodyStep(env, p, data).s)
  {
    hide Call, TakeLine, ParseChunkSize, ChunkSizeStep, ChunkEndStep, PieceStep;
    if p.body.Chunked? && p.chunk.Size? {
      SizeHonest(env, p, data);
    } else if p.body.Chunked? && p.chunk.DataEnd? {
      EndHonest(env, p, data);
    } else if !p.body.NoBody? {
      PieceHonest(env, p, data);
    }
  }

  lemma {:induction false} PieceHonest(env: Env, p: Parser, data: string)
    requires Going(env, p)
    ensures Honest(env, PieceStep(env, p, data).s)
  {
    hide Call;
    CallHonest(env, p, BodyPiece(data[..PieceLength(p, |data|)]));
  }

  lemma {:induction false} EndHonest(env: Env, p: Parser, data: string)
    requires Going(env, p) && ChunkEndStep(env, p, data).Did?
    ensures Honest(env, ChunkEndStep(env, p, data).s)
  {
    hide Call, TakeLine;
    CallHonest(env, p.(chunk := Size), ChunkComplete);
  }

  lemma {:induction false} SizeHonest(env: Env, p: Parser, data: string)
    requires Going(env, p) && ChunkSizeStep(env, p, data).Did?
    ensures Honest(env, ChunkSizeStep(env, p, data).s)
  {
    hide Call, TakeLine, ParseChunkSize;
    CallHonest(env, p.(phase := Trailers, headerCount := 0), ChunksComplete);
    if TakeLine(env.maxLine, data).Line? && ParseChunkSize(TakeLine(env.maxLine, data).text).Some? {
      var size := ParseChunkSize(TakeLine(env.maxLine, data).text).value;
      CallHonest(env, p.(contentLen := size, origContentLen := size, chunk := Data), NewChunk(size));
    }
  }

  lemma {:induction false} StepHonest(env: Env, p: Parser, data: string)
    requires Honest(env, p) && Step(env, Head(env), p, data).Did?
    ensures Honest(env, Step(env, Head(env), p, data).s)
  {
    hide Call, BodyStep, HeadStep, TakeLine;
    match p.phase
    case Failed =>
    case Start => {
      CallHonest(env, Reset(p).(phase := HeadLine), MsgBegin);
    }
    case Complete => CallHonest(env, p.(phase := Start, flags := p.flags - {Skipping}), MsgComplete);
    case Body => BodyHonest(env, p, data);
    case _ => {
      if TakeLine(env.maxLine, data).Line? {
        HeadStepHonest(env, p, TakeLine(env.maxLine, data).text);
      }
    }
  }

  /**
   Whatever the stream, its cutting and its pauses: the parser has failed with the user error exactly if the last
   hook it told failed, and every other failure is its own.
   */
  lemma {:induction false} HooksAreBlamedJustly(env: Env, pause: nat -> bool, calls: nat, pieces: seq<string>)
    ensures var m := ParserMachine(env, Head(env));
      Sound(m) && m.ok(FRESH) && Honest(env, Feed(m, pause, Driven(FRESH, "", calls), pieces).s)
  {
    HeadIsOk(env);
    MachineSound(env, Head(env));
    hide Sound, Step, HookFailed, HeadOk;
    var m := ParserMachine(env, Head(env));
    var honest := (p: Parser) => Honest(env, p);
    forall p, data | m.ok(p) && honest(p) && m.step(p, data).Did? ensures honest(m.step(p, data).s) {
      StepHonest(env, p, data);
    }
    FreshHonest(env);
    FeedKeeps(m, honest, pause, Driven(FRESH, "", calls), pieces);
  }

  lemma {:induction false} FreshHonest(env: Env)
    ensures Honest(env, FRESH)
  {
  }

  // ---------------------------------------------------------------------------------------
  // The error of a refusal
  // ---------------------------------------------------------------------------------------

  ghost predicate IsVersion(v: string) {
    exists major: nat, minor: nat :: 0 < major < 10 && minor < 10 && v == VersionOf(major, minor)
  }

  lemma {:induction false} VersionOrNot(v: string)
    ensures Version(v).Some? <==> IsVersion(v)
  {
    if Version(v).Some? {
      VersionIs(v);
    }
    if major: nat, minor: nat :| 0 < major < 10 && minor < 10 && v == VersionOf(major, minor) {
      VersionRead(major, minor);
    }
  }

  /** Why a request line is refused: the first of its words that is wrong. */
  ghost predicate RequestCause(env: Env, line: string, e: Error) {
    var (m, t, v, rest) := Tokens(line);
    if m !in METHODS then e.InvalidMethod?
    else if t == "" || rest != "" then e.InvalidRequestLine?
    else if !IsVersion(v) then e.InvalidVersion?
    else
      && t[0] != '/' && t != "*"
      && match env.uri(t, m == "CONNECT")
         case BadUri => e.InvalidRequestLine?
         case Authority(_, _) => false
         case Absolute(scheme, _, _, _, _) => e.InvalidScheme? && !KnownScheme(env, scheme)
  }

  lemma {:induction false} TargetRefused(env: Env, p: Parser, m: string, t: string)
    requires Going(env, p) && t != "" && p.method_ == m
    requires var q := MethodAndTarget(env, p, m, t); q.phase.Failed? && !q.error.UserError?
    ensures var e := MethodAndTarget(env, p, m, t).error;
      && t[0] != '/' && t != "*"
      && match env.uri(t, m == "CONNECT")
         case BadUri => e.InvalidRequestLine?
         case Authority(_, _) => false
         case Absolute(scheme, _, _, _, _) => e.InvalidScheme? && !KnownScheme(env, scheme)
  {
    CallHonest(env, p, MethodIs(m));
    CallShape(env, p, MethodIs(m));
    hide Call, CallAll, TargetEvents;
    var p1 := Call(env, p, MethodIs(m));
    var own := t[0] == '/' || t == "*";
    var u := if own then BadUri else env.uri(t, m == "CONNECT");
    if !p1.phase.Failed? {
      OnlyHooks(env, p1.(scheme := TargetScheme(env, t, u)), TargetEvents(t, u));
    }
  }

  lemma {:induction false} OnlyHooks(env: Env, p: Parser, events: seq<Event>)
    requires Going(env, p)
    ensures CallAll(env, p, events).phase.Failed? ==> CallAll(env, p, events).error.UserError?
    decreases |events|
  {
    if events != [] {
      CallHonest(env, p, events[0]);
      hide Call, HookFailed;
      OneHook(env, p, events[0]);
      if !Call(env, p, events[0]).phase.Failed? {
        OnlyHooks(env, Call(env, p, events[0]), events[1..]);
      }
    }
  }

  lemma {:induction false} OneHook(env: Env, p: Parser, e: Event)
    requires !p.phase.Failed?
    ensures Call(env, p, e).phase.Failed? ==> Call(env, p, e).error.UserError?
  {
  }

  lemma {:induction false} RequestRefused(env: Env, p: Parser, line: string)
    requires Going(env, p)
    ensures var q := RequestLine(env, p, line);
      q.phase.Failed? && !q.error.UserError? ==> RequestCause(env, line, q.error)
  {
    TokensRead(env, p, line);
    var (m, t, v, rest) := Tokens(line);
    VersionOrNot(v);
    hide RequestLine, Tokens, Version, MethodAndTarget, IsVersion;
    if m in METHODS && t != "" && rest == "" && Version(v).Some? {
      var (major, minor) := Version(v).value;
      var p1 := p.(method_ := m, major := major, minor := minor);
      var q := MethodAndTarget(env, p1, m, t);
      if q.phase.Failed? && !q.error.UserError? {
        TargetRefused(env, p1, m, t);
      }
    }
  }

  /** Why a status line is refused: it does not begin with a version, or no code follows. */
  ghost predicate StatusCause(line: string, e: Error) {
    if |line| < 12 || !IsVersion(line[..8]) then e.InvalidVersion?
    else e.InvalidStatus? && !exists major: nat, minor: nat, code: nat :: StatusWords(line, major, minor, code)
  }

  lemma {:induction false} StatusRefused(p: Parser, line: string)
    requires !p.phase.Failed?
    ensures StatusLine(p, line).phase.Failed? ==> StatusCause(line, StatusLine(p, line).error)
  {
    if |line| >= 12 {
      VersionOrNot(line[..8]);
    }
    hide Version, IsVersion, StatusWords;
    forall major: nat, minor: nat, code: nat | StatusWords(line, major, minor, code)
      ensures !StatusLine(p, line).phase.Failed?
    {
      StatusLineRead(p, line, major, minor, code);
    }
  }

  /** Why a step fails, when no hook did. */
  ghost predicate Cause(env: Env, p: Parser, data: string, e: Error) {
    var line := TakeLine(env.maxLine, data);
    match p.phase
    case Start => e.TooBig? && data != "" && data[0] == '\n' && 0 < env.maxEmptyLines <= p.emptyLines + 1
    case HeadLine =>
      if line.TooLong? then e.TooBig?
      else line.Line? && if env.kind.Request? then RequestCause(env, line.text, e) else StatusCause(line.text, e)
    case Body =>
      && p.body.Chunked?
      && (if p.chunk.DataEnd? then e.InvalidChunk?
          else p.chunk.Size? && if line.TooLong? then e.TooBig? else e.InvalidChunkSize?)
    case Complete => false
    case Failed => false
    case _ =>
      if line.TooLong? || (line.Line? && line.text != "" && 0 < env.maxHeaders <= p.headerCount) then e.TooBig?
      else e.InvalidHeader?
  }

  lemma {:induction false} FieldRefused(env: Env, p: Parser, line: string, trailer: bool)
    requires Going(env, p)
    ensures var q := HeaderLine(env, p, line, trailer);
      q.phase.Failed? && !q.error.UserError? ==> q.error.InvalidHeader?
  {
    hide Call, NoteField, SplitField;
    if SplitField(line).Some? {
      var (name, value) := SplitField(line).value;
      var p1 := Call(env, p, HdrKey(name));
      CallHonest(env, p, HdrKey(name));
      OneHook(env, p, HdrKey(name));
      if !p1.phase.Failed? {
        NoteFieldHonest(env, p1, name, value);
        NoteRefused(env, p1, name, value);
        var p2 := if trailer then p1 else NoteField(env, p1, name, value);
        if !p2.phase.Failed? {
          OneHook(env, p2, HdrVal(value));
        }
      }
    }
  }

  lemma {:induction false} NoteRefused(env: Env, p: Parser, name: string, value: string)
    requires Going(env, p)
    ensures var q := NoteField(env, p, name, value); q.phase.Failed? && !q.error.UserError? ==> q.error.InvalidHeader?
  {
    hide Call, NoteTokens, NoteCodings, NoteLengths, TokensOf, CodingsOf, Multipart;
    OneHook(env, p.(flags := p.flags + {HaveHost}), Hostname(value));
    LengthsRefused(p, env.elements(value));
  }

  lemma {:induction false} LengthsRefused(p: Parser, lengths: seq<string>)
    requires !p.phase.Failed?
    ensures NoteLengths(p, lengths).phase.Failed? ==> NoteLengths(p, lengths).error.InvalidHeader?
    decreases |lengths|
  {
    hide ParseU64;
    if lengths != [] && !NoteOneLength(p, lengths[0]).phase.Failed? {
      LengthsRefused(NoteOneLength(p, lengths[0]), lengths[1..]);
    }
  }

  lemma {:induction false} HeadRefused(env: Env, p: Parser, line: string)
    requires Going(env, p) && InHead(p.phase)
    ensures var q := HeadStep(env, p, line);
      q.phase.Failed? && !q.error.UserError? ==>
        if p.phase.HeadLine? && env.kind.Request? then RequestCause(env, line, q.error)
        else if p.phase.HeadLine? then StatusCause(line, q.error)
        else if line != "" && 0 < env.maxHeaders <= p.headerCount then q.error.TooBig?
        else q.error.InvalidHeader?
  {
    hide RequestLine, StatusLine, RequestCause, StatusCause, HeaderLine, Call, BodyOf;
    if p.phase.HeadLine? {
      RequestRefused(env, p, line);
      StatusRefused(p, line);
      var p1 := if env.kind.Request? then RequestLine(env, p, line) else StatusLine(p, line);
      OneHook(env, p1.(phase := Headers), HdrsBegin);
    } else if line == "" {
      var p1 := Framing(env, p);
      OneHook(env, p1.(phase := if p1.body.NoBody? then Complete else Body), HdrsComplete(p1.body, p1.origContentLen));
    } else {
      FieldRefused(env, p.(headerCount := p.headerCount + 1), line, p.phase.Trailers?);
    }
  }

  /** Every failure that no hook caused has the error its cause is given. */
  lemma {:induction false} FailureHasItsError(env: Env, p: Parser, data: string)
    requires Going(env, p) && WellFormed(p)
    ensures var r := Step(env, Head(env), p, data);
      r.Did? && r.s.phase.Failed? && !r.s.error.UserError? ==> Cause(env, p, data, r.s.error)
  {
    hide Call, HeadStep, TakeLine, RequestCause, StatusCause, ParseChunkSize;
    if p.phase.Start? {
      OneHook(env, Reset(p).(phase := HeadLine), MsgBegin);
    } else if p.phase.Complete? {
      OneHook(env, p.(phase := Start, flags := p.flags - {Skipping}), MsgComplete);
    } else if p.phase.Body? {
      BodyRefused(env, p, data);
    } else if TakeLine(env.maxLine, data).Line? {
      HeadRefused(env, p, TakeLine(env.maxLine, data).text);
    }
  }

  lemma {:induction false} BodyRefused(env: Env, p: Parser, data: string)
    requires Going(env, p) && p.phase.Body? && WellFormed(p)
    ensures var r := BodyStep(env, p, data);
      r.Did? && r.s.phase.Failed? && !r.s.error.UserError? ==> Cause(env, p, data, r.s.error)
  {
    hide Call, TakeLine, ParseChunkSize, RequestCause, StatusCause;
    OneHook(env, p, BodyPiece(data[..PieceLength(p, |data|)]));
    OneHook(env, p.(phase := Trailers, headerCount := 0), ChunksComplete);
    OneHook(env, p.(chunk := Size), ChunkComplete);
    if TakeLine(env.maxLine, data).Line? && ParseChunkSize(TakeLine(env.maxLine, data).text).Some? {
      var size := ParseChunkSize(TakeLine(env.maxLine, data).text).value;
      OneHook(env, p.(contentLen := size, origContentLen := size, chunk := Data), NewChunk(size));
    }
  }

  /**
   The end of a chunk: an empty line ends it; a single other byte is not enough to tell; anything else is refused, and
   nothing of it used.
   */
  lemma {:induction false} ChunkEndTaken(env: Env, p: Parser, data: string)
    requires p.phase.Body? && p.body.Chunked? && p.chunk.DataEnd?
    ensures Step(env, Head(env), p, data) ==
      if "\r\n" <= data then Did(Call(env, p.(chunk := Size), ChunkComplete).(total := p.total + 2), 2)
      else if "\n" <= data then Did(Call(env, p.(chunk := Size), ChunkComplete).(total := p.total + 1), 1)
      else if |data| < 2 then Stuck
      else Did(Failing(p, InvalidChunk), 0)
  {
    hide Call;
    if "\r\n" <= data {
      assert "" + "\r\n" == "\r\n";
      LineTaken(env.maxLine, data, "", "\r\n");
    } else if "\n" <= data {
      assert "" + "\n" == "\n";
      LineTaken(env.maxLine, data, "", "\n");
    } else {
      NoEmptyLine(env.maxLine, data);
    }
    hide TakeLine;
  }

  lemma {:induction false} NoEmptyLine(max: nat, data: string)
    requires !("\r\n" <= data) && !("\n" <= data)
    ensures var r := TakeLine(max, data); (r.Line? ==> r.text != "") && (|data| < 2 ==> r.NoLine?)
  {
    LineOrNot(max, data);
    if '\n' in data {
      var text, ending :| BeginsWithLine(data, text, ending);
      LineTaken(max, data, text, ending);
      assert text == "" ==> text + ending == ending;
      hide TakeLine;
    }
  }

  // ---------------------------------------------------------------------------------------
  // Limits
  // ---------------------------------------------------------------------------------------

  lemma {:induction false} FieldCounted(env: Env, p: Parser, line: string)
    requires p.phase.Headers? && line != "" && !HeadStep(env, p, line).phase.Failed?
    ensures var q := HeadStep(env, p, line);
      q.phase.Headers? && q.headerCount == p.headerCount + 1 && (env.maxHeaders == 0 || q.headerCount <= env.maxHeaders)
  {
    hide HeaderLine;
    HeaderLineFrame(env, p.(headerCount := p.headerCount + 1), line);
  }

  lemma {:induction false} FieldsCounted(env: Env, p: Parser, lines: seq<string>)
    requires p.phase.Headers? && (forall i :: 0 <= i < |lines| ==> lines[i] != "")
    requires !TakeHead(Head(env), p, lines).phase.Failed?
    ensures var q := TakeHead(Head(env), p, lines); q.phase.Headers? && q.headerCount == p.headerCount + |lines|
    decreases |lines|
  {
    hide HeadStep;
    if lines != [] {
      var init := lines[..|lines| - 1];
      FieldsCounted(env, p, init);
      FieldCounted(env, TakeHead(Head(env), p, init), lines[|lines| - 1]);
    }
  }

  /** A head has at most as many fields as allowed; the first one too many fails it, whatever it says. */
  lemma {:induction false} TooManyFields(env: Env, p: Parser, lines: seq<string>, line: string)
    requires p.phase.Headers? && p.headerCount == 0 && (forall i :: 0 <= i < |lines| ==> lines[i] != "") && line != ""
    requires !TakeHead(Head(env), p, lines).phase.Failed? && env.maxHeaders > 0
    ensures |lines| >= env.maxHeaders ==> var q := TakeHead(Head(env), p, lines + [line]);
      q.phase.Failed? && q.error.TooBig? && q.trace == TakeHead(Head(env), p, lines).trace
  {
    FieldsCounted(env, p, lines);
    assert (lines + [line])[..|lines|] == lines;
    hide HeaderLine;
  }

  /** k empty lines. */
  function EmptyLines(k: nat): string {
    if k == 0 then "" else "\r\n" + EmptyLines(k - 1)
  }

  function AfterEmpty(env: Env, p: Parser, k: nat): Parser {
    p.(emptyLines := if env.maxEmptyLines > 0 then p.emptyLines + k else p.emptyLines, total := p.total + 2 * k)
  }

  lemma {:induction false} EmptyLineSkipped(env: Env, p: Parser, rest: string)
    requires Sound(ParserMachine(env, Head(env))) && p.phase.Start?
    ensures var m := ParserMachine(env, Head(env)); var data := "\r\n" + rest;
      && m.ok(p) && m.ok(AfterEmpty(env, p, 1))
      && if env.maxEmptyLines == 0 || p.emptyLines + 1 < env.maxEmptyLines
         then Exhaust(m, p, data) == Exhaust(m, AfterEmpty(env, p, 1), rest)
         else Exhaust(m, p, data).s.phase.Failed? && Exhaust(m, p, data).s.error.TooBig? &&
              Exhaust(m, p, data).s.trace == p.trace
  {
    hide Sound, Exhaust, Step;
    var m, data := ParserMachine(env, Head(env)), "\r\n" + rest;
    assert data[0] == '\r' && data[1..][0] == '\n' && data[1..][1..] == rest;
    var p1 := p.(total := p.total + 1);
    var p2 := Skipped(env, p1, '\n').(total := p1.total + 1);
    SkipStep(env, p, data);
    SkipStep(env, p1, data[1..]);
    ExhaustStep(m, p, data, p1, 1);
    ExhaustStep(m, p1, data[1..], p2, 1);
    if p2.phase.Failed? {
      FailedRests(env, p2, rest);
    }
  }

  lemma {:induction false} SkipStep(env: Env, p: Parser, data: string)
    requires p.phase.Start? && data != "" && (data[0] == '\r' || data[0] == '\n')
    ensures Step(env, Head(env), p, data) == Did(Skipped(env, p, data[0]).(total := p.total + 1), 1)
  {
  }

  lemma {:induction false} FailedRests(env: Env, p: Parser, data: string)
    requires Sound(ParserMachine(env, Head(env))) && p.phase.Failed?
    ensures ParserMachine(env, Head(env)).ok(p) && Exhaust(ParserMachine(env, Head(env)), p, data) == Outcome(p, data)
  {
    hide Sound;
  }

  /** Empty lines before a message are skipped, up to the limit; the one that reaches it fails the parser. */
  lemma {:induction false} EmptyLinesSkipped(env: Env, p: Parser, k: nat, rest: string)
    requires Sound(ParserMachine(env, Head(env))) && p.phase.Start?
    requires env.maxEmptyLines > 0 ==> p.emptyLines < env.maxEmptyLines
    ensures var m := ParserMachine(env, Head(env)); var data := EmptyLines(k) + rest;
      && m.ok(p) && m.ok(AfterEmpty(env, p, k))
      && if env.maxEmptyLines == 0 || p.emptyLines + k < env.maxEmptyLines
         then Exhaust(m, p, data) == Exhaust(m, AfterEmpty(env, p, k), rest)
         else Exhaust(m, p, data).s.phase.Failed? && Exhaust(m, p, data).s.error.TooBig? &&
              Exhaust(m, p, data).s.trace == p.trace
    decreases k
  {
    hide Sound, Exhaust, Step;
    if k == 0 {
      assert EmptyLines(0) + rest == rest;
    } else {
      assert EmptyLines(k) + rest == "\r\n" + (EmptyLines(k - 1) + rest);
      EmptyLineSkipped(env, p, EmptyLines(k - 1) + rest);
      if env.maxEmptyLines == 0 || p.emptyLines + 1 < env.maxEmptyLines {
        EmptyLinesSkipped(env, AfterEmpty(env, p, 1), k - 1, rest);
      }
    }
  }
}
