/**
 What the hooks may be told, and in which order: a message grammar that knows nothing of the
 parser, and the proof that every trace of the parser is a prefix of it.
 */
module ParserGrammar {
  import opened Prelude
  import opened Text
  import opened Incremental
  import opened ParserSpec
  import opened ParserRuns

  /**
   Where in a message a trace stands. `skip` is whether some hook of the head asked to skip the
   body; `left` counts the body or chunk bytes still owed.
   */
  datatype Place =
    | Wrong
    | Between
    | Begun(skip: bool)
    | InTarget(skip: bool, last: nat)
    | Fields(skip: bool, host: bool, open: Open)
    | Sized(left: nat)
    | Unsized
    | Chunks
    | Chunk(left: nat)
    | Trail(open: Open)
    | Done

  /** A field is announced by its key, perhaps followed by the host name, and closed by its value. */
  datatype Open = Closed | AfterKey | AfterHost

  /** The order of the request line's hooks: method, scheme, host, port, path, args, uri. */
  function TargetNext(last: nat, e: Event): nat {
    match e
    case SchemeIs(_) => if last == 1 then 2 else 0
    case HostIs(_) => if last == 1 || last == 2 then 3 else 0
    case PortIs(_) => if last == 3 then 4 else 0
    case PathIs(_) => if last == 1 || last == 3 || last == 4 then 5 else 0
    case ArgsAre(_) => if last == 5 then 6 else 0
    case UriIs(_) => if last == 5 || last == 6 then 7 else 0
    case _ => 0
  }

  function AfterHead(skip: bool, body: BodyKind, length: nat): Place {
    if skip then Done
    else match body
      case NoBody => Done
      case Length => Sized(length)
      case Chunked => Chunks
      case Identity => Unsized
  }

  /** The grammar of messages, one hook at a time; `s` is whether this hook asked to skip the body. */
  function Told(kind: Kind, g: Place, e: Event, s: bool): Place {
    match g
    case Wrong => Wrong
    case Between => if e.MsgBegin? then Begun(s) else Wrong
    case Begun(skip) =>
      if kind.Request? && e.MethodIs? then InTarget(skip || s, 1)
      else if kind.Response? && e.HdrsBegin? then Fields(skip || s, false, Closed)
      else Wrong
    case InTarget(skip, last) =>
      if last == 7 && e.HdrsBegin? then Fields(skip || s, false, Closed)
      else if TargetNext(last, e) > 0 then InTarget(skip || s, TargetNext(last, e))
      else Wrong
    case Fields(skip, host, open) =>
      if open.Closed? && e.HdrKey? then Fields(skip || s, host, AfterKey)
      else if open.AfterKey? && e.Hostname? && !host then Fields(skip || s, true, AfterHost)
      else if !open.Closed? && e.HdrVal? then Fields(skip || s, host, Closed)
      else if open.Closed? && e.HdrsComplete? then AfterHead(skip || s, e.body, e.length)
      else Wrong
    case Sized(left) =>
      if e.BodyPiece? && 0 < |e.text| <= left then Sized(left - |e.text|)
      else if e.MsgComplete? && left == 0 then Between
      else Wrong
    case Unsized => if e.BodyPiece? && |e.text| > 0 then Unsized else if e.MsgComplete? then Between else Wrong
    case Chunks =>
      if e.NewChunk? && e.size > 0 then Chunk(e.size) else if e.ChunksComplete? then Trail(Closed) else Wrong
    case Chunk(left) =>
      if e.BodyPiece? && 0 < |e.text| <= left then Chunk(left - |e.text|)
      else if e.ChunkComplete? && left == 0 then Chunks
      else Wrong
    case Trail(open) =>
      if open.Closed? && e.HdrKey? then Trail(AfterKey)
      else if open.AfterKey? && e.HdrVal? then Trail(Closed)
      else if open.Closed? && e.MsgComplete? then Between
      else Wrong
    case Done => if e.MsgComplete? then Between else Wrong
  }

  /** Where a whole trace stands. */
  function Scan(env: Env, t: seq<Event>): Place {
    if t == [] then Between
    else Told(env.kind, Scan(env, t[..|t| - 1]), t[|t| - 1], env.verdict(t).SkipBody?)
  }

  /** A trace is a prefix of a sequence of well-formed messages. */
  ghost predicate Grammatical(env: Env, t: seq<Event>) {
    !Scan(env, t).Wrong?
  }

  /** What the parser's state says about where its trace stands. */
  ghost predicate Agrees(env: Env, p: Parser) {
    var g := Scan(env, p.trace);
    match p.phase
    case Start => g == Between
    case HeadLine => g == Begun(Skipping in p.flags) && HaveHost !in p.flags
    case Headers => g == Fields(Skipping in p.flags, (HaveHost in p.flags), Closed)
    case Body =>
      (match p.body
       case NoBody => false
       case Length => g == Sized(p.contentLen)
       case Identity => g == Unsized
       case Chunked =>
         if p.chunk.Size? then g == Chunks
         else if p.chunk.Data? then g == Chunk(p.contentLen)
         else g == Chunk(0))
    case Trailers => g == Trail(Closed)
    case Complete => g == Done || g == Sized(0) || g == Trail(Closed)
    case Failed => !g.Wrong?
  }

  // ---------------------------------------------------------------------------------------
  // One hook
  // ---------------------------------------------------------------------------------------

  lemma {:induction false} ScanSnoc(env: Env, t: seq<Event>, e: Event)
    ensures Scan(env, t + [e]) == Told(env.kind, Scan(env, t), e, env.verdict(t + [e]).SkipBody?)
  {
    assert (t + [e])[..|t|] == t;
  }

  /** A hook that is not a body piece: the trace grows by it, the skip flag may be set, or the message fails. */
  lemma {:induction false} CallIs(env: Env, p: Parser, e: Event)
    requires !e.BodyPiece?
    ensures var p' := Call(env, p, e);
      && p'.trace == p.trace + [e]
      && p' == p.(phase := p'.phase, error := p'.error, flags := p'.flags, trace := p'.trace)
      && p'.flags == p.flags + (if env.verdict(p'.trace).SkipBody? then {Skipping} else {})
      && (p'.phase == p.phase || p'.phase.Failed?)
  {
    CallShape(env, p, e);
    match env.verdict(p.trace + [e])
    case Go =>
    case SkipBody =>
    case Fail =>
  }

  /** It moves the trace by one grammar step. */
  lemma {:induction false} CallScan(env: Env, p: Parser, e: Event)
    requires !e.BodyPiece?
    ensures var p' := Call(env, p, e);
      && Scan(env, p'.trace) == Told(env.kind, Scan(env, p.trace), e, env.verdict(p'.trace).SkipBody?)
      && p'.flags == p.flags + (if env.verdict(p'.trace).SkipBody? then {Skipping} else {})
      && p' == p.(phase := p'.phase, error := p'.error, flags := p'.flags, trace := p'.trace)
      && (p'.phase == p.phase || p'.phase.Failed?)
  {
    CallIs(env, p, e);
    ScanSnoc(env, p.trace, e);
  }

  /** Body pieces one after the other stand where their concatenation stands. */
  lemma {:induction false} PieceTold(kind: Kind, g: Place, x: string, y: string, s1: bool, s2: bool, s3: bool)
    requires y != [] && !Told(kind, Told(kind, g, BodyPiece(x), s1), BodyPiece(y), s2).Wrong?
    ensures Told(kind, Told(kind, g, BodyPiece(x), s1), BodyPiece(y), s2) == Told(kind, g, BodyPiece(x + y), s3)
  {
  }

  /** A body hook's own word on skipping comes too late to matter. */
  lemma {:induction false} PieceToldAlike(kind: Kind, g: Place, x: string, s1: bool, s2: bool)
    ensures Told(kind, g, BodyPiece(x), s1) == Told(kind, g, BodyPiece(x), s2)
  {
  }

  lemma {:induction false} PieceScan(env: Env, p: Parser, x: string)
    requires x != [] && !Told(env.kind, Scan(env, p.trace), BodyPiece(x), false).Wrong?
    ensures var p' := Call(env, p, BodyPiece(x));
      Scan(env, p'.trace) == Told(env.kind, Scan(env, p.trace), BodyPiece(x), false)
  {
    hide Told;
    CallShape(env, p, BodyPiece(x));
    var t, t' := p.trace, Append(p.trace, BodyPiece(x));
    if t != [] && t[|t| - 1].BodyPiece? {
      var z := t[|t| - 1].text;
      assert t'[..|t'| - 1] == t[..|t| - 1];
      var g := Scan(env, t[..|t| - 1]);
      PieceTold(env.kind, g, z, x, env.verdict(t).SkipBody?, false, env.verdict(t').SkipBody?);
    } else {
      assert t'[..|t'| - 1] == t;
      PieceToldAlike(env.kind, Scan(env, t), x, false, env.verdict(t').SkipBody?);
    }
  }

  // ---------------------------------------------------------------------------------------
  // The start line
  // ---------------------------------------------------------------------------------------

  /** The hooks of a request target, from `last` on, are in order and end with the whole URI. */
  ghost predicate InOrder(last: nat, events: seq<Event>)
    decreases |events|
  {
    if events == [] then last == 7
    else TargetNext(last, events[0]) > 0 && InOrder(TargetNext(last, events[0]), events[1..])
  }

  lemma {:induction false} OrderCons(last: nat, e: Event, rest: seq<Event>)
    requires TargetNext(last, e) > 0 && InOrder(TargetNext(last, e), rest)
    ensures InOrder(last, [e] + rest)
  {
    assert ([e] + rest)[1..] == rest;
  }

  lemma {:induction false} PathOrder(path: string, args: Option<string>, t: string, last: nat)
    requires last == 1 || last == 3 || last == 4
    ensures InOrder(last, PathEvents(path, args, t))
  {
    var uri := [UriIs(t)];
    assert InOrder(7, []) && uri == [UriIs(t)] + [];
    OrderCons(5, UriIs(t), []);
    OrderCons(6, UriIs(t), []);
    if args.Some? {
      OrderCons(5, ArgsAre(args.value), uri);
      OrderCons(last, PathIs(path), [ArgsAre(args.value)] + uri);
      assert PathEvents(path, args, t) == [PathIs(path)] + ([ArgsAre(args.value)] + uri);
    } else {
      OrderCons(last, PathIs(path), uri);
      assert PathEvents(path, args, t) == [PathIs(path)] + uri;
    }
  }

  lemma {:induction false} HostOrder(host: string, port: Option<string>, rest: seq<Event>, last: nat)
    requires last == 1 || last == 2
    requires InOrder(3, rest) && InOrder(4, rest)
    ensures InOrder(last, HostEvents(host, port, rest))
  {
    if port.Some? {
      OrderCons(3, PortIs(port.value), rest);
      OrderCons(last, HostIs(host), [PortIs(port.value)] + rest);
      assert HostEvents(host, port, rest) == [HostIs(host)] + ([PortIs(port.value)] + rest);
    } else {
      OrderCons(last, HostIs(host), rest);
      assert HostEvents(host, port, rest) == [HostIs(host)] + rest;
    }
  }

  lemma {:induction false} TargetOrder(t: string, u: Uri)
    requires t != [] && (t[0] == '/' || t == "*" || !u.BadUri?)
    ensures InOrder(1, TargetEvents(t, u))
  {
    if t[0] == '/' {
      var n := IndexOf(t, '?');
      PathOrder(t[..n], if n < |t| then Some(t[n + 1..]) else None, t, 1);
    } else if t == "*" {
      PathOrder(t, None, t, 1);
    } else if u.Authority? {
      PathOrder("/", None, t, 3);
      PathOrder("/", None, t, 4);
      HostOrder(u.host, u.port, PathEvents("/", None, t), 1);
    } else {
      var path := if u.path == "" then "/" else u.path;
      PathOrder(path, u.query, t, 3);
      PathOrder(path, u.query, t, 4);
      HostOrder(u.host, u.port, PathEvents(path, u.query, t), 2);
      OrderCons(1, SchemeIs(u.scheme), HostEvents(u.host, u.port, PathEvents(path, u.query, t)));
    }
  }

  /** Hooks in order take the trace through the request target, or one fails. */
  lemma {:induction false} CallAllScan(env: Env, p: Parser, events: seq<Event>, last: nat)
    requires Scan(env, p.trace) == InTarget(Skipping in p.flags, last)
    requires InOrder(last, events) && !p.phase.Failed?
    ensures var p' := CallAll(env, p, events);
      if p'.phase.Failed? then !Scan(env, p'.trace).Wrong?
      else
        && p'.phase == p.phase && (HaveHost in p'.flags) == (HaveHost in p.flags)
        && Scan(env, p'.trace) == InTarget(Skipping in p'.flags, 7)
    decreases |events|
  {
    if events != [] {
      var p1 := Call(env, p, events[0]);
      CallScan(env, p, events[0]);
      if !p1.phase.Failed? {
        CallAllScan(env, p1, events[1..], TargetNext(last, events[0]));
      }
    }
  }

  lemma {:induction false} TargetScan(env: Env, p: Parser, t: string)
    requires t != [] && p.phase.HeadLine? && Scan(env, p.trace) == InTarget(Skipping in p.flags, 1)
    ensures var p' := Target(env, p, t);
      if p'.phase.Failed? then !Scan(env, p'.trace).Wrong?
      else
        && p'.phase.HeadLine? && (HaveHost in p'.flags) == (HaveHost in p.flags)
        && Scan(env, p'.trace) == InTarget(Skipping in p'.flags, 7)
  {
    var own := t[0] == '/' || t == "*";
    var u := if own then BadUri else env.uri(t, p.method_ == "CONNECT");
    if own || !u.BadUri? {
      var p1 := p.(scheme := TargetScheme(env, t, u));
      TargetOrder(t, u);
      CallAllScan(env, p1, TargetEvents(t, u), 1);
    }
  }

  lemma {:induction false} RequestLineScan(env: Env, p: Parser, line: string)
    requires env.kind.Request? && p.phase.HeadLine? && Agrees(env, p)
    ensures var p' := RequestLine(env, p, line);
      if p'.phase.Failed? then !Scan(env, p'.trace).Wrong?
      else p'.phase.HeadLine? && HaveHost !in p'.flags && Scan(env, p'.trace) == InTarget(Skipping in p'.flags, 7)
  {
    var (m, line1) := NextToken(line);
    var (t, line2) := NextToken(line1);
    var (v, line3) := NextToken(line2);
    RequestPartsScan(env, p, MethodName(m), m, t, v, line3);
  }

  lemma {:induction false} RequestPartsScan(env: Env, p: Parser, name: string, m: string, t: string, v: string,
      rest: string)
    requires env.kind.Request? && p.phase.HeadLine? && Agrees(env, p)
    ensures var p' := RequestParts(env, p, name, m, t, v, rest);
      if p'.phase.Failed? then !Scan(env, p'.trace).Wrong?
      else p'.phase.HeadLine? && HaveHost !in p'.flags && Scan(env, p'.trace) == InTarget(Skipping in p'.flags, 7)
  {
    if name != "" && t != "" && rest == "" && Version(v).Some? {
      var (major, minor) := Version(v).value;
      var p2 := p.(method_ := name, major := major, minor := minor);
      CallScan(env, p2, MethodIs(m));
      var p3 := Call(env, p2, MethodIs(m));
      if !p3.phase.Failed? {
        TargetScan(env, p3, t);
      }
    }
  }

  lemma {:induction false} StatusLineScan(env: Env, p: Parser, line: string)
    requires p.phase.HeadLine?
    ensures var p' := StatusLine(p, line);
      p'.trace == p.trace && p'.flags == p.flags && (p'.phase.Failed? || p'.phase.HeadLine?)
  {
  }

  lemma {:induction false} HeadLineAgrees(env: Env, p: Parser, line: string)
    requires p.phase.HeadLine? && Agrees(env, p)
    ensures Agrees(env, HeadStep(env, p, line))
  {
    var p1 := if env.kind.Request? then RequestLine(env, p, line) else StatusLine(p, line);
    if env.kind.Request? {
      RequestLineScan(env, p, line);
    } else {
      StatusLineScan(env, p, line);
    }
    if !p1.phase.Failed? {
      CallScan(env, p1.(phase := Headers), HdrsBegin);
    }
  }

  // ---------------------------------------------------------------------------------------
  // Fields
  // ---------------------------------------------------------------------------------------

  lemma {:induction false} NoteCodingsFrame(f: Flags, codings: seq<Coding>)
    ensures var f' := NoteCodings(f, codings);
      (Skipping in f') == (Skipping in f) && (HaveHost in f') == (HaveHost in f)
    decreases |codings|
  {
    if codings != [] {
      NoteCodingsFrame(NoteCoding(f, codings[0]), codings[1..]);
    }
  }

  lemma {:induction false} NoteTokensFrame(f: Flags, tokens: seq<Token>)
    ensures var f' := NoteTokens(f, tokens); (Skipping in f') == (Skipping in f) && (HaveHost in f') == (HaveHost in f)
    decreases |tokens|
  {
    if tokens != [] {
      match tokens[0]
      case CloseToken => NoteTokensFrame(f + {Close}, tokens[1..]);
      case KeepAliveToken => NoteTokensFrame(f + {KeepAlive}, tokens[1..]);
      case OtherToken => NoteTokensFrame(f, tokens[1..]);
    }
  }

  lemma {:induction false} NoteLengthsFrame(p: Parser, lengths: seq<string>)
    ensures var p' := NoteLengths(p, lengths);
      && p'.trace == p.trace && (Skipping in p'.flags) == (Skipping in p.flags) &&
        (HaveHost in p'.flags) == (HaveHost in p.flags)
      && (p'.phase == p.phase || p'.phase.Failed?)
    decreases |lengths|
  {
    if lengths != [] {
      NoteLengthsFrame(NoteOneLength(p, lengths[0]), lengths[1..]);
    }
  }

  /** Where a trace stands once a field was looked at. */
  ghost predicate FieldSeen(env: Env, p: Parser) {
    if p.phase.Failed? then !Scan(env, p.trace).Wrong?
    else
      && p.phase.Headers?
      && var g := Scan(env, p.trace);
         g == Fields(Skipping in p.flags, (HaveHost in p.flags), AfterKey) ||
           g == Fields(Skipping in p.flags, (HaveHost in p.flags), AfterHost)
  }

  /** Looking at any field but Host fires nothing. */
  lemma {:induction false} NoteFieldFrame(env: Env, p: Parser, name: string, value: string)
    requires !(|name| == 4 && env.equalsI(name, "Host"))
    ensures var p' := NoteField(env, p, name, value);
      && p'.trace == p.trace && (Skipping in p'.flags) == (Skipping in p.flags) &&
        (HaveHost in p'.flags) == (HaveHost in p.flags)
      && (p'.phase == p.phase || p'.phase.Failed?)
  {
    if |name| == 10 {
      NoteTokensFrame(p.flags, TokensOf(env, value));
    } else if |name| == 14 {
      NoteLengthsFrame(p, env.elements(value));
    } else if |name| == 17 {
      NoteCodingsFrame(p.flags + {HaveCoding}, CodingsOf(env, value));
    }
  }

  lemma {:induction false} HostScan(env: Env, p: Parser, value: string)
    requires p.phase.Headers? && HaveHost !in p.flags &&
      Scan(env, p.trace) == Fields(Skipping in p.flags, false, AfterKey)
    ensures FieldSeen(env, Call(env, p.(flags := p.flags + {HaveHost}), Hostname(value)))
  {
    CallScan(env, p.(flags := p.flags + {HaveHost}), Hostname(value));
  }

  /** Looking at a field fires at most the host name, and that only once a message. */
  lemma {:induction false} NoteFieldScan(env: Env, p: Parser, name: string, value: string)
    requires p.phase.Headers? && Scan(env, p.trace) == Fields(Skipping in p.flags, (HaveHost in p.flags), AfterKey)
    ensures FieldSeen(env, NoteField(env, p, name, value))
  {
    if |name| == 4 && env.equalsI(name, "Host") {
      if HaveHost !in p.flags {
        HostScan(env, p, value);
      }
      assert NoteField(env, p, name, value) ==
        if (HaveHost in p.flags) then p else Call(env, p.(flags := p.flags + {HaveHost}), Hostname(value));
    } else {
      NoteFieldFrame(env, p, name, value);
    }
  }

  lemma {:induction false} FieldCloses(env: Env, p: Parser, value: string)
    requires FieldSeen(env, p) && !p.phase.Failed?
    ensures Agrees(env, Call(env, p, HdrVal(value)))
  {
    CallScan(env, p, HdrVal(value));
  }

  lemma {:induction false} HeaderFieldAgrees(env: Env, p: Parser, name: string, value: string)
    requires p.phase.Headers? && Agrees(env, p)
    ensures var p1 := Call(env, p, HdrKey(name));
      if p1.phase.Failed? then Agrees(env, p1) else FieldSeen(env, NoteField(env, p1, name, value))
  {
    CallScan(env, p, HdrKey(name));
    var p1 := Call(env, p, HdrKey(name));
    if !p1.phase.Failed? {
      NoteFieldScan(env, p1, name, value);
    }
  }

  lemma {:induction false} TrailerFieldAgrees(env: Env, p: Parser, name: string, value: string)
    requires p.phase.Trailers? && Agrees(env, p)
    ensures var p1 := Call(env, p, HdrKey(name));
      Agrees(env, if p1.phase.Failed? then p1 else Call(env, p1, HdrVal(value)))
  {
    CallScan(env, p, HdrKey(name));
    CallScan(env, Call(env, p, HdrKey(name)), HdrVal(value));
  }

  lemma {:induction false} HeaderLineAgrees(env: Env, p: Parser, line: string)
    requires (p.phase.Headers? || p.phase.Trailers?) && Agrees(env, p)
    ensures Agrees(env, HeaderLine(env, p, line, p.phase.Trailers?))
  {
    if SplitField(line).Some? {
      var (name, value) := SplitField(line).value;
      if p.phase.Trailers? {
        TrailerFieldAgrees(env, p, name, value);
      } else {
        HeaderFieldAgrees(env, p, name, value);
        var p2 := NoteField(env, Call(env, p, HdrKey(name)), name, value);
        if FieldSeen(env, p2) && !p2.phase.Failed? {
          FieldCloses(env, p2, value);
        }
      }
    }
  }

  lemma {:induction false} EndOfHeadAgrees(env: Env, p: Parser)
    requires p.phase.Headers? && Agrees(env, p)
    ensures Agrees(env, EndOfHead(env, p))
  {
    hide BodyOf, Scan;
    var p1 := Framing(env, p);
    if !p1.phase.Failed? {
      CallScan(env, p1.(phase := if p1.body.NoBody? then Complete else Body), HdrsComplete(p1.body, p1.origContentLen));
    }
  }

  lemma {:induction false} HeadAgrees(env: Env, p: Parser, line: string)
    requires (p.phase.HeadLine? || p.phase.Headers? || p.phase.Trailers?) && Agrees(env, p)
    ensures Agrees(env, HeadStep(env, p, line))
  {
    hide StartLine, EndOfHead, HeaderLine, Scan;
    if p.phase.HeadLine? {
      HeadLineAgrees(env, p, line);
    } else if line == "" {
      if p.phase.Headers? {
        EndOfHeadAgrees(env, p);
      }
    } else {
      HeaderLineAgrees(env, p.(headerCount := p.headerCount + 1), line);
    }
  }

  // ---------------------------------------------------------------------------------------
  // Bodies and whole steps
  // ---------------------------------------------------------------------------------------

  lemma {:induction false} PieceAgrees(env: Env, p: Parser, data: string)
    requires InPiece(p) && WellFormed(p) && Agrees(env, p) && data != []
    ensures PieceStep(env, p, data).Did? && Agrees(env, PieceStep(env, p, data).s)
  {
    var n := PieceLength(p, |data|);
    PieceScan(env, p, data[..n]);
    CallShape(env, p, BodyPiece(data[..n]));
  }

  lemma {:induction false} ChunkSizeAgrees(env: Env, p: Parser, data: string)
    requires p.phase.Body? && p.body.Chunked? && p.chunk.Size? && Agrees(env, p)
    ensures var r := ChunkSizeStep(env, p, data); r.Did? ==> Agrees(env, r.s)
  {
    hide TakeLine, ParseChunkSize, Scan, Call;
    var r := TakeLine(env.maxLine, data);
    if r.Line? && ParseChunkSize(r.text).Some? {
      var size := ParseChunkSize(r.text).value;
      if size == 0 {
        CallScan(env, p.(phase := Trailers, headerCount := 0), ChunksComplete);
      } else {
        CallScan(env, p.(contentLen := size, origContentLen := size, chunk := Data), NewChunk(size));
      }
    }
  }

  lemma {:induction false} ChunkEndAgrees(env: Env, p: Parser, data: string)
    requires p.phase.Body? && p.body.Chunked? && p.chunk.DataEnd? && Agrees(env, p)
    ensures var r := ChunkEndStep(env, p, data); r.Did? ==> Agrees(env, r.s)
  {
    CallScan(env, p.(chunk := Size), ChunkComplete);
  }

  lemma {:induction false} BodyAgrees(env: Env, p: Parser, data: string)
    requires p.phase.Body? && WellFormed(p) && Agrees(env, p)
    ensures var r := BodyStep(env, p, data); r.Did? ==> Agrees(env, r.s)
  {
    if data != [] {
      if InPiece(p) {
        PieceAgrees(env, p, data);
      } else if p.chunk.Size? {
        ChunkSizeAgrees(env, p, data);
      } else {
        ChunkEndAgrees(env, p, data);
      }
    }
  }

  lemma {:induction false} StartAgrees(env: Env, p: Parser, data: string)
    requires p.phase.Start? && Agrees(env, p)
    ensures var r := StartStep(env, p, data); r.Did? ==> Agrees(env, r.s)
  {
    hide Scan, Call;
    CallScan(env, Reset(p).(phase := HeadLine), MsgBegin);
  }

  lemma {:induction false} CompleteAgrees(env: Env, p: Parser)
    requires p.phase.Complete? && Agrees(env, p)
    ensures Agrees(env, Call(env, p.(phase := Start, flags := p.flags - {Skipping}), MsgComplete))
  {
    hide Scan, Call;
    CallScan(env, p.(phase := Start, flags := p.flags - {Skipping}), MsgComplete);
  }

  /** Taking a line keeps a trace grammatical. */
  ghost predicate HeadKeeps(env: Env, head: LineTaker) {
    forall p: Parser, line: string :: (p.phase.HeadLine? || p.phase.Headers? || p.phase.Trailers?) && Agrees(env, p) ==>
      Agrees(env, head(p, line))
  }

  lemma {:induction false} HeadDoesKeep(env: Env)
    ensures HeadKeeps(env, Head(env))
  {
    forall p: Parser, line: string | (p.phase.HeadLine? || p.phase.Headers? || p.phase.Trailers?) && Agrees(env, p)
      ensures Agrees(env, Head(env)(p, line))
    {
      HeadAgrees(env, p, line);
    }
  }

  lemma {:induction false} TotalIrrelevant(env: Env, p: Parser, total: nat)
    requires Agrees(env, p)
    ensures Agrees(env, p.(total := total))
  {
  }

  lemma {:induction false} PhaseAgrees(env: Env, head: LineTaker, p: Parser, data: string, p': Parser)
    requires HeadKeeps(env, head) && WellFormed(p) && Agrees(env, p)
    requires PhaseStep(env, head, p, data).Did? && PhaseStep(env, head, p, data).s == p'
    ensures Agrees(env, p')
  {
    match p.phase
    case Start => StartAgrees(env, p, data);
    case Body => BodyAgrees(env, p, data);
    case Complete => CompleteAgrees(env, p);
    case _ =>
  }

  /** Every step keeps the trace grammatical and the state in agreement with it. */
  lemma {:induction false} StepAgrees(env: Env, head: LineTaker, p: Parser, data: string)
    requires HeadKeeps(env, head) && WellFormed(p) && Agrees(env, p)
    ensures var r := Step(env, head, p, data); r.Did? ==> Agrees(env, r.s)
  {
    var r := PhaseStep(env, head, p, data);
    if r.Did? {
      PhaseAgrees(env, head, p, data, r.s);
      TotalIrrelevant(env, r.s, p.total + r.n);
    }
  }

  ghost function Agreement(env: Env): Parser -> bool {
    (p: Parser) => Agrees(env, p)
  }

  lemma {:induction false} MachineAgrees(env: Env, head: LineTaker)
    requires HeadKeeps(env, head)
    ensures Kept(ParserMachine(env, head), Agreement(env))
  {
    var m, inv := ParserMachine(env, head), Agreement(env);
    forall p, data | m.ok(p) && inv(p) && m.step(p, data).Did?
      ensures inv(m.step(p, data).s)
    {
      StepAgrees(env, head, p, data);
    }
  }

  lemma {:induction false} FedTraceAgrees(env: Env, head: LineTaker, pause: nat -> bool, calls: nat,
      pieces: seq<string>)
    requires HeadOk(head) && HeadKeeps(env, head)
    ensures var m := ParserMachine(env, head);
      Sound(m) && m.ok(FRESH) && Grammatical(env, Feed(m, pause, Driven(FRESH, "", calls), pieces).s.trace)
  {
    MachineSound(env, head);
    MachineAgrees(env, head);
    assert Agreement(env)(FRESH);
    FeedKeeps(ParserMachine(env, head), Agreement(env), pause, Driven(FRESH, "", calls), pieces);
  }

  /**
   Every trace is a prefix of the message grammar: whatever the stream, however it is cut, wherever
   hooks pause, skip or fail. The grammar gives a message with a Content-Length exactly that many
   body bytes before its end, and every chunk exactly its announced size.
   */
  lemma {:induction false} TracesAreGrammatical(env: Env, pause: nat -> bool, calls: nat, pieces: seq<string>)
    ensures var m := ParserMachine(env, Head(env));
      Sound(m) && m.ok(FRESH) && Grammatical(env, Feed(m, pause, Driven(FRESH, "", calls), pieces).s.trace)
  {
    HeadIsOk(env);
    HeadDoesKeep(env);
    FedTraceAgrees(env, Head(env), pause, calls, pieces);
  }

  /** The end of the stream keeps the trace grammatical too. */
  lemma {:induction false} EofAgrees(env: Env, p: Parser)
    requires Agrees(env, p)
    ensures Agrees(env, AtEof(env, p))
  {
    CallScan(env, p.(phase := Start), MsgComplete);
  }

  /**
   The end of the stream completes a message that is read until close, and nothing else: where the trace stands in
   such a body the hook is told, and the parser is ready for another message unless that hook fails it.
   */
  lemma {:induction false} EofCompletes(env: Env, p: Parser)
    requires Agrees(env, p)
    ensures var q := AtEof(env, p);
      if Scan(env, p.trace).Unsized? && !p.phase.Failed? then
        && q.trace == p.trace + [MsgComplete] && (q.phase.Start? || q.phase.Failed?)
        && (q.phase.Failed? <==> env.verdict(q.trace).Fail?) && (q.phase.Failed? ==> q.error.UserError?)
      else q == p
  {
    hide Scan;
    CallIs(env, p.(phase := Start), MsgComplete);
  }

  // ---------------------------------------------------------------------------------------
  // Counted bodies
  // ---------------------------------------------------------------------------------------

  /** How many body bytes were handed out in a stretch of a trace. */
  function Handed(u: seq<Event>): nat {
    |BodyBytes(u)|
  }

  lemma {:induction false} PrefixGrammatical(env: Env, t: seq<Event>, u: seq<Event>)
    requires Grammatical(env, t + u)
    ensures Grammatical(env, t)
    decreases |u|
  {
    if u == [] {
      assert t + u == t;
    } else {
      var v, e := u[..|u| - 1], u[|u| - 1];
      assert t + u == (t + v) + [e];
      ScanSnoc(env, t + v, e);
      PrefixGrammatical(env, t, v);
    }
  }

  /** While a counted body or chunk has not ended, what is handed out is what its count goes down by. */
  lemma {:induction false} CountsDown(env: Env, t: seq<Event>, u: seq<Event>)
    requires Grammatical(env, t + u)
    requires (Scan(env, t).Sized? && MsgComplete !in u) || (Scan(env, t).Chunk? && ChunkComplete !in u)
    ensures Handed(u) <= Scan(env, t).left
    ensures var left := Scan(env, t).left - Handed(u);
      Scan(env, t + u) == if Scan(env, t).Sized? then Sized(left) else Chunk(left)
    decreases |u|
  {
    hide Told, Scan;
    if u == [] {
      assert t + u == t;
    } else {
      var v, e := u[..|u| - 1], u[|u| - 1];
      assert t + u == (t + v) + [e];
      assert e in u && forall x :: x in v ==> x in u;
      ScanSnoc(env, t + v, e);
      CountStep(env.kind, Scan(env, t + v), e, env.verdict(t + v + [e]).SkipBody?);
      CountsDown(env, t, v);
    }
  }

  /** One hook inside a counted body or chunk: a piece that is counted off, or the grammar is left. */
  lemma {:induction false} CountStep(kind: Kind, g: Place, e: Event, s: bool)
    ensures g.Wrong? ==> Told(kind, g, e, s).Wrong?
    ensures (g.Sized? && !e.MsgComplete?) || (g.Chunk? && !e.ChunkComplete?) ==>
      var g' := Told(kind, g, e, s);
      g'.Wrong? || (e.BodyPiece? && |e.text| <= g.left && g' == if g.Sized? then Sized(g.left - |e.text|)
        else Chunk(g.left - |e.text|))
  {
  }

  /** Skipped bodies hand out nothing before the message completes. */
  lemma {:induction false} DoneHandsNothing(env: Env, t: seq<Event>, u: seq<Event>)
    requires Grammatical(env, t + u) && Scan(env, t).Done? && MsgComplete !in u
    ensures u == []
  {
    if u != [] {
      assert t + u == (t + [u[0]]) + u[1..];
      PrefixGrammatical(env, t + [u[0]], u[1..]);
      ScanSnoc(env, t, u[0]);
    }
  }

  /** The hook that was told last left the message without a body to come: some hook of the head asked to skip it. */
  ghost predicate Skipped(env: Env, t: seq<Event>) {
    Scan(env, t).Done?
  }

  /** A message with a Content-Length that completed, unless skipped, was handed exactly that many bytes. */
  lemma {:induction false} CountedBodyIsWhole(env: Env, t: seq<Event>, n: nat, u: seq<Event>)
    requires MsgComplete !in u && Grammatical(env, t + [HdrsComplete(Length, n)] + u + [MsgComplete])
    ensures Handed(u) == if Skipped(env, t + [HdrsComplete(Length, n)]) then 0 else n
  {
    var c := t + [HdrsComplete(Length, n)];
    PrefixGrammatical(env, c + u, [MsgComplete]);
    PrefixGrammatical(env, c, u);
    ScanSnoc(env, t, HdrsComplete(Length, n));
    ScanSnoc(env, c + u, MsgComplete);
    if Scan(env, c).Done? {
      DoneHandsNothing(env, c, u);
    } else {
      CountsDown(env, c, u);
    }
  }

  /** A chunk that completed was handed exactly its announced size. */
  lemma {:induction false} ChunkIsWhole(env: Env, t: seq<Event>, n: nat, u: seq<Event>)
    requires ChunkComplete !in u && Grammatical(env, t + [NewChunk(n)] + u + [ChunkComplete])
    ensures Handed(u) == n
  {
    var c := t + [NewChunk(n)];
    PrefixGrammatical(env, c + u, [ChunkComplete]);
    PrefixGrammatical(env, c, u);
    ScanSnoc(env, t, NewChunk(n));
    ScanSnoc(env, c + u, ChunkComplete);
    CountsDown(env, c, u);
  }

  /** The trace of a fresh parser fed a stream in pieces. */
  ghost function FedTrace(env: Env, pause: nat -> bool, calls: nat, pieces: seq<string>): seq<Event> {
    HeadIsOk(env);
    MachineSound(env, Head(env));
    Feed(ParserMachine(env, Head(env)), pause, Driven(FRESH, "", calls), pieces).s.trace
  }

  /**
   So in every trace of the parser, from the announcement of a counted body or chunk at i to its end
   at j, exactly the announced number of bytes was handed out.
   */
  lemma {:induction false} CompletedBodiesAreWhole(env: Env, pause: nat -> bool, calls: nat, pieces: seq<string>,
      i: nat, j: nat)
    requires i < j < |FedTrace(env, pause, calls, pieces)|
    ensures var tr := FedTrace(env, pause, calls, pieces);
      var u := tr[i + 1..j];
      && (tr[i].HdrsComplete? && tr[i].body.Length? && tr[j].MsgComplete? && MsgComplete !in u ==>
           Handed(u) == if Skipped(env, tr[..i + 1]) then 0 else tr[i].length)
      && (tr[i].NewChunk? && tr[j].ChunkComplete? && ChunkComplete !in u ==> Handed(u) == tr[i].size)
  {
    hide FedTrace;
    var tr := FedTrace(env, pause, calls, pieces);
    FedIsGrammatical(env, pause, calls, pieces);
    var u := tr[i + 1..j];
    assert tr == tr[..i] + [tr[i]] + u + [tr[j]] + tr[j + 1..];
    assert tr[..i + 1] == tr[..i] + [tr[i]];
    PrefixGrammatical(env, tr[..i] + [tr[i]] + u + [tr[j]], tr[j + 1..]);
    if tr[i].HdrsComplete? && tr[i].body.Length? && tr[j].MsgComplete? && MsgComplete !in u {
      CountedBodyIsWhole(env, tr[..i], tr[i].length, u);
    }
    if tr[i].NewChunk? && tr[j].ChunkComplete? && ChunkComplete !in u {
      ChunkIsWhole(env, tr[..i], tr[i].size, u);
    }
  }

  lemma {:induction false} FedIsGrammatical(env: Env, pause: nat -> bool, calls: nat, pieces: seq<string>)
    ensures Grammatical(env, FedTrace(env, pause, calls, pieces))
  {
    TracesAreGrammatical(env, pause, calls, pieces);
  }
}
