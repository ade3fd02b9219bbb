/**
 One message per run: the hook for a complete message is called at most once in a run, and nothing
 is called after it.
 */
module ParserOnce {
  import opened Prelude
  import opened Text
  import opened Incremental
  import opened ParserSpec
  import opened ParserRuns

  /** How many messages a trace has completed. */
  function Completes(trace: seq<Event>): nat
    decreases |trace|
  {
    if trace == [] then 0
    else Completes(trace[..|trace| - 1]) + (if trace[|trace| - 1].MsgComplete? then 1 else 0)
  }

  lemma {:induction false} AppendCompletes(trace: seq<Event>, e: Event)
    ensures Completes(Append(trace, e)) == Completes(trace) + (if e.MsgComplete? then 1 else 0)
  {
    var t := Append(trace, e);
    assert t[..|t| - 1] == if |t| > |trace| then trace else trace[..|trace| - 1];
  }

  lemma {:induction false} CallCompletes(env: Env, p: Parser, e: Event)
    ensures Completes(Call(env, p, e).trace) == Completes(p.trace) + (if e.MsgComplete? then 1 else 0)
    ensures !e.BodyPiece? ==> BodyBytes(Call(env, p, e).trace) == BodyBytes(p.trace)
  {
    AppendCompletes(p.trace, e);
    CallShape(env, p, e);
    BodyBytesSnoc(p.trace, e);
  }

  lemma {:induction false} CallAllCompletes(env: Env, p: Parser, events: seq<Event>)
    requires forall i :: 0 <= i < |events| ==> !events[i].MsgComplete? && !events[i].BodyPiece?
    ensures Same(p, CallAll(env, p, events))
    decreases |events|
  {
    hide Completes, BodyBytes, Call;
    if events != [] {
      CallCompletes(env, p, events[0]);
      CallAllCompletes(env, Call(env, p, events[0]), events[1..]);
    }
  }

  /** No completed message and no body byte was added. */
  predicate Same(p: Parser, p': Parser) {
    Completes(p'.trace) == Completes(p.trace) && BodyBytes(p'.trace) == BodyBytes(p.trace)
  }

  lemma {:induction false} MethodAndTargetSame(env: Env, p: Parser, m: string, t: string)
    requires t != []
    ensures Same(p, MethodAndTarget(env, p, m, t))
  {
    CallCompletes(env, p, MethodIs(m));
    var p1 := Call(env, p, MethodIs(m));
    if !p1.phase.Failed? {
      TargetSame(env, p1, t);
    }
  }

  lemma {:induction false} TargetSame(env: Env, p: Parser, t: string)
    requires t != []
    ensures Same(p, Target(env, p, t))
  {
    hide CallAll, Completes, BodyBytes, TargetScheme, TargetEvents;
    var own := t[0] == '/' || t == "*";
    var u := if own then BadUri else env.uri(t, p.method_ == "CONNECT");
    NoBodyPieces(t, u);
    CallAllCompletes(env, p.(scheme := TargetScheme(env, t, u)), TargetEvents(t, u));
  }

  lemma {:induction false} RequestPartsSame(env: Env, p: Parser, name: string, m: string, t: string, v: string,
      rest: string)
    ensures Same(p, RequestParts(env, p, name, m, t, v, rest))
  {
    hide MethodAndTarget;
    if t != "" && Version(v).Some? {
      var (major, minor) := Version(v).value;
      MethodAndTargetSame(env, p.(method_ := name, major := major, minor := minor), m, t);
    }
  }

  lemma {:induction false} RequestLineSame(env: Env, p: Parser, line: string)
    ensures Same(p, RequestLine(env, p, line))
  {
    hide RequestParts, NextToken, MethodName, Same;
    var (m, line1) := NextToken(line);
    var (t, line2) := NextToken(line1);
    var (v, line3) := NextToken(line2);
    RequestPartsSame(env, p, MethodName(m), m, t, v, line3);
  }

  lemma {:induction false} StatusLineTrace(p: Parser, line: string)
    ensures StatusLine(p, line).trace == p.trace
  {
    hide Version, Digits, Decimal;
  }

  lemma {:induction false} StartLineSame(env: Env, p: Parser, line: string)
    ensures Same(p, StartLine(env, p, line))
  {
    hide RequestLine, StatusLine, Call, Completes;
    RequestLineSame(env, p, line);
    StatusLineTrace(p, line);
    var p1 := if env.kind.Request? then RequestLine(env, p, line) else StatusLine(p, line);
    CallCompletes(env, p1.(phase := Headers), HdrsBegin);
  }

  lemma {:induction false} NoteLengthsTrace(p: Parser, lengths: seq<string>)
    ensures NoteLengths(p, lengths).trace == p.trace
    decreases |lengths|
  {
    if lengths != [] {
      NoteLengthsTrace(NoteOneLength(p, lengths[0]), lengths[1..]);
    }
  }

  lemma {:induction false} NoteFieldSame(env: Env, p: Parser, name: string, value: string)
    ensures Same(p, NoteField(env, p, name, value))
  {
    hide Call, NoteLengths, NoteCodings, NoteTokens;
    NoteLengthsTrace(p, env.elements(value));
    CallCompletes(env, p.(flags := p.flags + {HaveHost}), Hostname(value));
  }

  lemma {:induction false} FieldSame(env: Env, p: Parser, name: string, value: string, trailer: bool)
    ensures Same(p, ToldField(env, p, name, value, trailer))
  {
    hide Call, NoteField;
    CallCompletes(env, p, HdrKey(name));
    var p1 := Call(env, p, HdrKey(name));
    NoteFieldSame(env, p1, name, value);
    var p2 := if trailer then p1 else NoteField(env, p1, name, value);
    CallCompletes(env, p2, HdrVal(value));
  }

  lemma {:induction false} EndOfHeadSame(env: Env, p: Parser)
    ensures Same(p, EndOfHead(env, p))
  {
    hide BodyOf;
    var p1 := Framing(env, p);
    CallCompletes(env, p1.(phase := if p1.body.NoBody? then Complete else Body),
      HdrsComplete(p1.body, p1.origContentLen));
  }

  lemma {:induction false} HeadSame(env: Env, p: Parser, line: string)
    ensures Same(p, HeadStep(env, p, line))
  {
    hide StartLine, EndOfHead, ToldField;
    StartLineSame(env, p, line);
    EndOfHeadSame(env, p);
    if SplitField(line).Some? {
      var (name, value) := SplitField(line).value;
      FieldSame(env, p.(headerCount := p.headerCount + 1), name, value, p.phase.Trailers?);
    }
  }

  /** No completed message was added. */
  predicate NotCompleted(p: Parser, p': Parser) {
    Completes(p'.trace) == Completes(p.trace)
  }

  lemma {:induction false} PieceNotCompleted(env: Env, p: Parser, data: string)
    ensures var r := PieceStep(env, p, data); r.Did? && NotCompleted(p, r.s)
  {
    hide Call, Completes, BodyBytes;
    CallCompletes(env, p, BodyPiece(data[..PieceLength(p, |data|)]));
  }

  lemma {:induction false} SizeNotCompleted(env: Env, p: Parser, data: string)
    ensures var r := ChunkSizeStep(env, p, data); r.Did? ==> NotCompleted(p, r.s)
  {
    hide Call, Completes, BodyBytes, ParseChunkSize, TakeLine;
    CallCompletes(env, p.(phase := Trailers, headerCount := 0), ChunksComplete);
    var line := TakeLine(env.maxLine, data);
    if line.Line? && ParseChunkSize(line.text).Some? {
      var size := ParseChunkSize(line.text).value;
      CallCompletes(env, p.(contentLen := size, origContentLen := size, chunk := Data), NewChunk(size));
    }
  }

  lemma {:induction false} EndNotCompleted(env: Env, p: Parser, data: string)
    ensures var r := ChunkEndStep(env, p, data); r.Did? ==> NotCompleted(p, r.s)
  {
    hide Call, Completes, BodyBytes, TakeLine;
    CallCompletes(env, p.(chunk := Size), ChunkComplete);
  }

  lemma {:induction false} BodyNotCompleted(env: Env, p: Parser, data: string)
    ensures var r := BodyStep(env, p, data); r.Did? ==> NotCompleted(p, r.s)
  {
    hide PieceStep, ChunkSizeStep, ChunkEndStep, Completes;
    PieceNotCompleted(env, p, data);
    SizeNotCompleted(env, p, data);
    EndNotCompleted(env, p, data);
  }

  lemma {:induction false} BeginsSame(env: Env, p: Parser)
    ensures Same(p, Begins(env, p))
  {
    CallCompletes(env, Reset(p).(phase := HeadLine), MsgBegin);
  }

  /** Only the step out of the complete phase completes a message, and its hook is that step's only one. */
  lemma {:induction false} StepCompletes(env: Env, p: Parser, data: string)
    ensures var r := Step(env, Head(env), p, data);
      r.Did? ==>
        if p.phase.Complete? then r.s.trace == p.trace + [MsgComplete] else NotCompleted(p, r.s)
  {
    hide HeadStep, BodyStep, Begins, TakeLine;
    BodyNotCompleted(env, p, data);
    BeginsSame(env, p);
    forall line: string ensures Same(p, HeadStep(env, p, line)) {
      HeadSame(env, p, line);
    }
    CallShape(env, p.(phase := Start, flags := p.flags - {Skipping}), MsgComplete);
  }

  /** At most one message was completed since `before`, and then nothing has been told since. */
  predicate AtMostOne(before: seq<Event>, trace: seq<Event>) {
    || Completes(trace) == Completes(before)
    || (Completes(trace) == Completes(before) + 1 && trace[|trace| - 1] == MsgComplete)
  }

  lemma {:induction false} OneMore(trace: seq<Event>)
    ensures AtMostOne(trace, trace + [MsgComplete])
  {
    assert (trace + [MsgComplete])[..|trace|] == trace;
  }

  lemma {:induction false} MachineIsSound(env: Env)
    ensures Sound(ParserMachine(env, Head(env)))
  {
    HeadIsOk(env);
    MachineSound(env, Head(env));
  }

  /** A run completes at most one message, and then that is the last its hooks hear. */
  lemma {:induction false} RunCompletesOnce(env: Env, pause: nat -> bool, p: Parser, calls: nat, data: string)
    requires WellFormed(p)
    ensures Sound(ParserMachine(env, Head(env)))
    ensures AtMostOne(p.trace, Run(ParserMachine(env, Head(env)), pause, p, calls, data).s.trace)
    decreases |data|, Rank(p)
  {
    hide Step, WellFormed, Sound, Completes, Calls, Pauses, Rank;
    MachineIsSound(env);
    var m := ParserMachine(env, Head(env));
    StepCompletes(env, p, data);
    OneStep(env, p, data);
    if m.step(p, data).Did? {
      var Did(p', n) := m.step(p, data);
      if p.phase.Complete? {
        OneMore(p.trace);
      } else if !Pauses(pause, calls, calls + m.calls(p, p')) {
        RunCompletesOnce(env, pause, p', calls + m.calls(p, p'), data[n..]);
      }
    }
  }

  lemma {:induction false} OneStep(env: Env, p: Parser, data: string)
    requires WellFormed(p)
    ensures var r := Step(env, Head(env), p, data);
      r.Did? ==> WellFormed(r.s) && r.n <= |data| && (r.n == 0 ==> Rank(r.s) < Rank(p))
  {
    hide Step;
    HeadIsOk(env);
    StepProgress(env, Head(env), p, data);
  }
}
