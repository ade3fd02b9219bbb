/**
 The incremental HTTP/1.x parser of msgparser.c as a machine of steps: one line, one body piece
 or one phase change per step. The class in Htparser.dfy is the parser in the source's own form
 and is proved against this machine; what the source promises is proved about the machine.

 A hook is a function of what the hooks have been told so far (`trace`, with adjacent body
 pieces joined): it lets the message go on, asks to skip the body, or fails it.
 */
module ParserSpec {
  import opened Prelude
  import opened Text
  import opened Incremental

  // ---------------------------------------------------------------------------------------
  // State
  // ---------------------------------------------------------------------------------------

  datatype Kind = Request | Response

  datatype Phase = Start | HeadLine | Headers | Body | Trailers | Complete | Failed

  datatype Error =
    | NoError | TooBig | InvalidMethod | InvalidRequestLine | InvalidScheme | InvalidVersion
    | InvalidHeader | InvalidChunkSize | InvalidChunk | UserError | InvalidStatus

  datatype BodyKind = NoBody | Length | Chunked | Identity

  datatype ChunkPhase = Size | Data | DataEnd

  datatype Scheme = NoScheme | Http | Https | Ftp | Nfs | UnknownScheme

  datatype Flag =
    | HaveHost | HaveLength | HaveCoding | ChunkedLast | CodingBad | CodingUnknown
    | HaveType | IsMultipart | KeepAlive | Close | Skipping

  type Flags = set<Flag>

  /** The hooks, with what they are given; the last head hook and the chunk hook can see the lengths. */
  datatype Event =
    | MsgBegin
    | MethodIs(text: string)
    | SchemeIs(text: string)
    | HostIs(text: string)
    | PortIs(text: string)
    | PathIs(text: string)
    | ArgsAre(text: string)
    | UriIs(text: string)
    | HdrsBegin
    | HdrKey(text: string)
    | HdrVal(text: string)
    | Hostname(text: string)
    | HdrsComplete(body: BodyKind, length: nat)
    | NewChunk(size: nat)
    | ChunkComplete
    | ChunksComplete
    | BodyPiece(text: string)
    | MsgComplete

  datatype Verdict = Go | SkipBody | Fail

  /** What htstring's URI parser finds in an absolute-form or CONNECT target. */
  datatype Uri =
    | BadUri
    | Authority(host: string, port: Option<string>)
    | Absolute(scheme: string, host: string, port: Option<string>, path: string, query: Option<string>)

  /**
   The kind of message, the configuration (0 is no limit), the hooks, and what the parser takes from
   the htstring library: case-insensitive equality, the element tokenizer, the URI parser.
   */
  datatype Env = Env(
    kind: Kind,
    maxLine: nat,
    maxHeaders: nat,
    maxEmptyLines: nat,
    verdict: seq<Event> -> Verdict,
    equalsI: (string, string) -> bool,
    elements: string -> seq<string>,
    uri: (string, bool) -> Uri)

  datatype Parser = Parser(
    phase: Phase,
    error: Error,
    body: BodyKind,
    chunk: ChunkPhase,
    method_: string,
    scheme: Scheme,
    status: nat,
    major: nat,
    minor: nat,
    flags: Flags,
    contentLen: nat,
    origContentLen: nat,
    headerCount: nat,
    emptyLines: nat,
    total: nat,
    trace: seq<Event>)

  /** message_reset: the message's state back to nothing seen; totals and trace stay. */
  function Reset(p: Parser): Parser {
    Parser(Start, NoError, NoBody, Size, "", NoScheme, 0, 0, 0, {}, 0, 0, 0, 0, p.total, p.trace)
  }

  const FRESH: Parser :=
    Parser(Start, NoError, NoBody, Size, "", NoScheme, 0, 0, 0, {}, 0, 0, 0, 0, 0, [])

  // ---------------------------------------------------------------------------------------
  // Hooks
  // ---------------------------------------------------------------------------------------

  /** The trace joins adjacent body pieces. */
  function Append(trace: seq<Event>, e: Event): seq<Event> {
    if e.BodyPiece? && trace != [] && trace[|trace| - 1].BodyPiece?
    then trace[..|trace| - 1] + [BodyPiece(trace[|trace| - 1].text + e.text)]
    else trace + [e]
  }

  /** The bytes of the body pieces of a trace. */
  function BodyBytes(t: seq<Event>): string {
    if t == [] then []
    else BodyBytes(t[..|t| - 1]) + (if t[|t| - 1].BodyPiece? then t[|t| - 1].text else [])
  }

  lemma {:induction false} BodyBytesSnoc(t: seq<Event>, e: Event)
    ensures BodyBytes(t + [e]) == BodyBytes(t) + (if e.BodyPiece? then e.text else [])
  {
    assert (t + [e])[..|t|] == t;
  }

  function Failing(p: Parser, e: Error): Parser {
    p.(phase := Failed, error := e)
  }

  function Call(env: Env, p: Parser, e: Event): Parser {
    var t := Append(p.trace, e);
    match env.verdict(t)
    case Go => p.(trace := t)
    case SkipBody => p.(trace := t, flags := p.flags + {Skipping})
    case Fail => Failing(p.(trace := t), UserError)
  }

  /** Hooks let the message go on. */
  ghost predicate HooksGo(env: Env) {
    forall t :: env.verdict(t).Go?
  }

  lemma {:induction false} GoingCall(env: Env, p: Parser, e: Event)
    requires HooksGo(env) && !e.BodyPiece?
    ensures Call(env, p, e) == p.(trace := p.trace + [e])
  {
  }

  /** Several hooks in a row; the first that fails ends it. */
  function CallAll(env: Env, p: Parser, events: seq<Event>): Parser
    decreases |events|
  {
    if events == [] then p else
    var p1 := Call(env, p, events[0]);
    if p1.phase.Failed? then p1 else CallAll(env, p1, events[1..])
  }

  // ---------------------------------------------------------------------------------------
  // Lines
  // ---------------------------------------------------------------------------------------

  datatype TakenLine = NoLine | TooLong | Line(text: string, used: nat)

  /** take_line: the first complete line, without its CRLF or bare LF, if it is not too long. */
  function TakeLine(max: nat, data: string): TakenLine {
    var nl := IndexOf(data, '\n');
    if nl == |data| then (if max > 0 && |data| > max then TooLong else NoLine)
    else
      var n := if nl > 0 && data[nl - 1] == '\r' then nl - 1 else nl;
      if max > 0 && n > max then TooLong else Line(data[..n], nl + 1)
  }

  // ---------------------------------------------------------------------------------------
  // The start line
  // ---------------------------------------------------------------------------------------

  const METHODS: seq<string> :=
    ["GET", "PUT", "POST", "HEAD", "COPY", "MOVE", "LOCK", "PATCH", "TRACE", "MKCOL", "DELETE", "UNLOCK",
     "OPTIONS", "CONNECT", "PROPFIND", "PROPPATCH"]

  function Version(v: string): Option<(nat, nat)> {
    if |v| == 8 && v[..5] == "HTTP/" && Digit(v[5]) && v[6] == '.' && Digit(v[7]) && v[5] != '0'
    then Some((DigitValue(v[5]), DigitValue(v[7])))
    else None
  }

  function SchemeFrom(env: Env, s: string): Scheme {
    if env.equalsI(s, "http") then Http
    else if env.equalsI(s, "https") then Https
    else if env.equalsI(s, "ftp") then Ftp
    else if env.equalsI(s, "nfs") then Nfs
    else UnknownScheme
  }

  /** path, args and uri: what every form of target ends with. */
  function PathEvents(path: string, args: Option<string>, t: string): seq<Event> {
    [PathIs(path)] + (if args.Some? then [ArgsAre(args.value)] else []) + [UriIs(t)]
  }

  /** host, port if any, and the rest. */
  function HostEvents(host: string, port: Option<string>, rest: seq<Event>): seq<Event> {
    [HostIs(host)] + (if port.Some? then [PortIs(port.value)] else []) + rest
  }

  /** The hooks a request target fires, in their order. */
  function TargetEvents(t: string, u: Uri): seq<Event>
    requires t != []
  {
    if t[0] == '/' then
      var n := IndexOf(t, '?');
      PathEvents(t[..n], if n < |t| then Some(t[n + 1..]) else None, t)
    else if t == "*" then PathEvents(t, None, t)
    else match u
      case BadUri => []
      case Authority(host, port) => HostEvents(host, port, PathEvents("/", None, t))
      case Absolute(scheme, host, port, path, query) =>
        [SchemeIs(scheme)] + HostEvents(host, port, PathEvents(if path == "" then "/" else path, query, t))
  }

  lemma {:induction false} NoBodyPieces(t: string, u: Uri)
    requires t != []
    ensures var es := TargetEvents(t, u); forall i :: 0 <= i < |es| ==> !es[i].BodyPiece? && !es[i].MsgComplete?
  {
    hide IndexOf;
  }

  function TargetScheme(env: Env, t: string, u: Uri): Scheme
    requires t != []
  {
    if t[0] == '/' || t == "*" || !u.Absolute? then NoScheme else SchemeFrom(env, u.scheme)
  }

  function TargetParts(env: Env, p: Parser, t: string, u: Uri): Parser
    requires t != []
  {
    var p1 := p.(scheme := TargetScheme(env, t, u));
    if p1.scheme.UnknownScheme? then Failing(p1, InvalidScheme) else CallAll(env, p1, TargetEvents(t, u))
  }

  function Target(env: Env, p: Parser, t: string): Parser
    requires t != []
  {
    var own := t[0] == '/' || t == "*";
    var u := if own then BadUri else env.uri(t, p.method_ == "CONNECT");
    if !own && u.BadUri? then Failing(p, InvalidRequestLine) else TargetParts(env, p, t, u)
  }

  function MethodAndTarget(env: Env, p: Parser, m: string, t: string): Parser
    requires t != []
  {
    var p1 := Call(env, p, MethodIs(m));
    if p1.phase.Failed? then p1 else Target(env, p1, t)
  }

  function MethodName(m: string): string {
    if m in METHODS then m else ""
  }

  /** A request line in its parts; `name` is the known method the first is, or empty. */
  function RequestParts(env: Env, p: Parser, name: string, m: string, t: string, v: string, rest: string): Parser {
    var p1 := p.(method_ := name);
    if name == "" then Failing(p1, InvalidMethod)
    else if t == "" || rest != "" then Failing(p1, InvalidRequestLine)
    else match Version(v)
      case None => Failing(p1, InvalidVersion)
      case Some((major, minor)) => MethodAndTarget(env, p1.(major := major, minor := minor), m, t)
  }

  function RequestLine(env: Env, p: Parser, line: string): Parser {
    var (m, line1) := NextToken(line);
    var (t, line2) := NextToken(line1);
    var (v, line3) := NextToken(line2);
    RequestParts(env, p, MethodName(m), m, t, v, line3)
  }

  /** The three digits after the version, and a blank or the end of the line after them. */
  function StatusCode(p: Parser, line: string): Parser
    requires |line| >= 12
  {
    if line[8] != ' ' || !Digits(line[9..12]) || (|line| > 12 && line[12] != ' ') then Failing(p, InvalidStatus)
    else
      var p1 := p.(status := Decimal(line[9..12]));
      if p1.status < 100 then Failing(p1, InvalidStatus) else p1
  }

  function StatusLine(p: Parser, line: string): Parser {
    if |line| < 12 || Version(line[..8]).None? then Failing(p, InvalidVersion)
    else
      var (major, minor) := Version(line[..8]).value;
      StatusCode(p.(major := major, minor := minor), line)
  }

  // ---------------------------------------------------------------------------------------
  // Header fields
  // ---------------------------------------------------------------------------------------

  datatype Coding = ChunkedCoding | KnownCoding | UnknownCoding

  function CodingOf(env: Env, c: string): Coding {
    if env.equalsI(c, "chunked") then ChunkedCoding
    else if env.equalsI(c, "gzip") || env.equalsI(c, "deflate") || env.equalsI(c, "compress") ||
      env.equalsI(c, "x-gzip")
    then KnownCoding
    else UnknownCoding
  }

  /** The codings a Transfer-Encoding value lists. */
  function CodingsOf(env: Env, value: string): seq<Coding> {
    var es := env.elements(value);
    seq(|es|, i requires 0 <= i < |es| => CodingOf(env, es[i]))
  }

  /** Any coding after chunked, chunked again included, spoils the list. */
  function After(f: Flags): Flags {
    if ChunkedLast in f then f + {CodingBad} else f
  }

  function NoteCoding(f: Flags, c: Coding): Flags {
    match c
    case ChunkedCoding => After(f) + {ChunkedLast}
    case KnownCoding => After(f)
    case UnknownCoding => After(f) + {CodingUnknown}
  }

  function NoteCodings(f: Flags, codings: seq<Coding>): Flags
    decreases |codings|
  {
    if codings == [] then f else NoteCodings(NoteCoding(f, codings[0]), codings[1..])
  }

  datatype Token = CloseToken | KeepAliveToken | OtherToken

  function TokenOf(env: Env, c: string): Token {
    if env.equalsI(c, "close") then CloseToken else if env.equalsI(c, "keep-alive") then KeepAliveToken else OtherToken
  }

  /** The tokens a Connection value lists. */
  function TokensOf(env: Env, value: string): seq<Token> {
    var es := env.elements(value);
    seq(|es|, i requires 0 <= i < |es| => TokenOf(env, es[i]))
  }

  function NoteTokens(f: Flags, tokens: seq<Token>): Flags
    decreases |tokens|
  {
    if tokens == [] then f
    else match tokens[0]
      case CloseToken => NoteTokens(f + {Close}, tokens[1..])
      case KeepAliveToken => NoteTokens(f + {KeepAlive}, tokens[1..])
      case OtherToken => NoteTokens(f, tokens[1..])
  }

  function NoteOneLength(p: Parser, length: string): Parser {
    match ParseU64(length)
    case None => Failing(p, InvalidHeader)
    case Some(n) =>
      if HaveLength in p.flags && n != p.origContentLen then Failing(p, InvalidHeader)
      else p.(origContentLen := n, flags := p.flags + {HaveLength})
  }

  /** Every element must be a number, and all of them the same one. */
  function NoteLengths(p: Parser, lengths: seq<string>): Parser
    decreases |lengths|
  {
    if lengths == [] then p else
    var p1 := NoteOneLength(p, lengths[0]);
    if p1.phase.Failed? then p1 else NoteLengths(p1, lengths[1..])
  }

  function NoteContentLength(p: Parser, lengths: seq<string>): Parser {
    if lengths == [] then Failing(p, InvalidHeader) else NoteLengths(p, lengths)
  }

  predicate Multipart(env: Env, value: string) {
    |value| >= 9 && env.equalsI(value[..9], "multipart")
  }

  /** The fields the parser itself looks at, told apart by their length first. */
  function NoteField(env: Env, p: Parser, name: string, value: string): Parser {
    if |name| == 4 && env.equalsI(name, "Host") then
      (if HaveHost in p.flags then p else Call(env, p.(flags := p.flags + {HaveHost}), Hostname(value)))
    else if |name| == 10 && env.equalsI(name, "Connection") then
      p.(flags := NoteTokens(p.flags, TokensOf(env, value)))
    else if |name| == 12 && env.equalsI(name, "Content-Type") then
      (if HaveType in p.flags then p
       else p.(flags := p.flags + {HaveType} + (if Multipart(env, value) then {IsMultipart} else {})))
    else if |name| == 14 && env.equalsI(name, "Content-Length") then NoteContentLength(p, env.elements(value))
    else if |name| == 17 && env.equalsI(name, "Transfer-Encoding") then
      p.(flags := NoteCodings(p.flags + {HaveCoding}, CodingsOf(env, value)))
    else p
  }

  /** A field line split at its colon, or None when it is refused. */
  function SplitField(line: string): Option<(string, string)> {
    var colon := IndexOf(line, ':');
    if line == [] || Blank(line[0]) || colon == |line| || colon == 0 || Blank(line[colon - 1]) then None
    else Some((line[..colon], TrimRight(TrimLeft(line[colon + 1..]))))
  }

  /** Trailer fields are told to the hooks and not looked at. */
  function ToldField(env: Env, p: Parser, name: string, value: string, trailer: bool): Parser {
    var p1 := Call(env, p, HdrKey(name));
    if p1.phase.Failed? then p1 else
    var p2 := if trailer then p1 else NoteField(env, p1, name, value);
    if p2.phase.Failed? then p2 else Call(env, p2, HdrVal(value))
  }

  function HeaderLine(env: Env, p: Parser, line: string, trailer: bool): Parser {
    match SplitField(line)
    case None => Failing(p, InvalidHeader)
    case Some((name, value)) => ToldField(env, p, name, value, trailer)
  }

  // ---------------------------------------------------------------------------------------
  // Framing and body
  // ---------------------------------------------------------------------------------------

  /** framing: where the body ends, in the order of section 6.3 of RFC 9112; None refuses the message. */
  function BodyOf(kind: Kind, p: Parser): Option<BodyKind> {
    var f := p.flags;
    if Skipping in f then Some(NoBody)
    else if kind.Response? && (p.status < 200 || p.status == 204 || p.status == 304) then Some(NoBody)
    else if HaveCoding in f then
      if CodingBad in f || (kind.Request? && (ChunkedLast !in f || CodingUnknown in f || HaveLength in f)) then None
      else Some(if ChunkedLast in f then Chunked else Identity)
    else if HaveLength in f then Some(if p.origContentLen > 0 then Length else NoBody)
    else if kind.Response? && p.major * 10 + p.minor < 11 && KeepAlive !in f then Some(Identity)
    else Some(NoBody)
  }

  function Framing(env: Env, p: Parser): Parser {
    match BodyOf(env.kind, p)
    case None => Failing(p, InvalidHeader)
    case Some(b) => p.(body := b, contentLen := if b.Length? then p.origContentLen else 0, chunk := Size)
  }

  /** The body is announced; the hook may still ask to skip it. */
  function Announced(env: Env, p: Parser): Parser {
    var p1 := Call(env, p.(phase := if p.body.NoBody? then Complete else Body), HdrsComplete(p.body, p.origContentLen));
    if !p1.phase.Failed? && Skipping in p1.flags then p1.(body := NoBody, phase := Complete) else p1
  }

  function EndOfHead(env: Env, p: Parser): Parser {
    var p1 := Framing(env, p);
    if p1.phase.Failed? then p1 else Announced(env, p1)
  }

  function StartLine(env: Env, p: Parser, line: string): Parser {
    var p1 := if env.kind.Request? then RequestLine(env, p, line) else StatusLine(p, line);
    if p1.phase.Failed? then p1 else Call(env, p1.(phase := Headers), HdrsBegin)
  }

  /** One complete line of the head or of the trailers. */
  function HeadStep(env: Env, p: Parser, line: string): Parser {
    if p.phase.HeadLine? then StartLine(env, p, line)
    else if line == "" then
      if p.phase.Trailers? then p.(phase := Complete) else EndOfHead(env, p)
    else if env.maxHeaders > 0 && p.headerCount >= env.maxHeaders then Failing(p, TooBig)
    else HeaderLine(env, p.(headerCount := p.headerCount + 1), line, p.phase.Trailers?)
  }

  /** How many of the bytes there are belong to the next body piece. */
  function PieceLength(p: Parser, avail: nat): nat {
    if p.body.Identity? then avail else Min(avail, p.contentLen)
  }

  /** n counted body bytes were handed out. */
  function PieceTaken(p: Parser, n: nat): Parser {
    var p1 := p.(contentLen := if n <= p.contentLen then p.contentLen - n else 0);
    if p1.contentLen > 0 then p1
    else if p.body.Length? then p1.(phase := Complete) else p1.(chunk := DataEnd)
  }

  /** Body bytes of a length-delimited, read-until-close or chunk-data piece. */
  function PieceStep(env: Env, p: Parser, data: string): Stepped<Parser> {
    var n := PieceLength(p, |data|);
    var p1 := if n == 0 && !p.body.Chunked? then p else Call(env, p, BodyPiece(data[..n]));
    Did(if p1.phase.Failed? || p.body.Identity? then p1 else PieceTaken(p1, n), n)
  }

  /** A size line was read: a chunk begins, or with size zero the trailers do. */
  function ChunkBegins(env: Env, p: Parser, size: nat): Parser {
    if size == 0 then Call(env, p.(phase := Trailers, headerCount := 0), ChunksComplete)
    else Call(env, p.(contentLen := size, origContentLen := size, chunk := Data), NewChunk(size))
  }

  function ChunkSizeStep(env: Env, p: Parser, data: string): Stepped<Parser> {
    match TakeLine(env.maxLine, data)
    case NoLine => Stuck
    case TooLong => Did(Failing(p, TooBig), 0)
    case Line(text, used) =>
      match ParseChunkSize(text)
      case None => Did(Failing(p, InvalidChunkSize), used)
      case Some(size) => Did(ChunkBegins(env, p, size), used)
  }

  function ChunkEndStep(env: Env, p: Parser, data: string): Stepped<Parser> {
    var r := TakeLine(env.maxLine, data);
    if r.NoLine? && |data| < 2 then Stuck
    else if r.Line? && r.text == "" then Did(Call(env, p.(chunk := Size), ChunkComplete), r.used)
    else Did(Failing(p, InvalidChunk), 0)
  }

  function BodyStep(env: Env, p: Parser, data: string): Stepped<Parser> {
    if data == [] then Stuck
    else match p.body
      case NoBody => Did(p.(phase := Complete), 0)
      case Length => PieceStep(env, p, data)
      case Identity => PieceStep(env, p, data)
      case Chunked =>
        match p.chunk
        case Size => ChunkSizeStep(env, p, data)
        case Data => PieceStep(env, p, data)
        case DataEnd => ChunkEndStep(env, p, data)
  }

  /** An empty line between messages is skipped, and counted by its LF. */
  function Skipped(env: Env, p: Parser, c: char): Parser {
    if c == '\n' && env.maxEmptyLines > 0 then
      var p1 := p.(emptyLines := p.emptyLines + 1);
      if p1.emptyLines >= env.maxEmptyLines then Failing(p1, TooBig) else p1
    else p
  }

  function Begins(env: Env, p: Parser): Parser {
    Call(env, Reset(p).(phase := HeadLine), MsgBegin)
  }

  function StartStep(env: Env, p: Parser, data: string): Stepped<Parser> {
    if data == [] then Stuck
    else if data[0] == '\r' || data[0] == '\n' then Did(Skipped(env, p, data[0]), 1)
    else Did(Begins(env, p), 0)
  }

  /**
   How a complete line of the head or trailers is taken. The steps below work for any way of taking
   a line, so what they promise does not depend on what lines mean; `Head(env)` is the parser's own.
   */
  type LineTaker = (Parser, string) -> Parser

  function Head(env: Env): LineTaker {
    (p: Parser, line: string) => HeadStep(env, p, line)
  }

  function PhaseStep(env: Env, head: LineTaker, p: Parser, data: string): Stepped<Parser> {
    match p.phase
    case Start => StartStep(env, p, data)
    case Body => BodyStep(env, p, data)
    case Complete => Did(Call(env, p.(phase := Start, flags := p.flags - {Skipping}), MsgComplete), 0)
    case Failed => Stuck
    case _ =>
      match TakeLine(env.maxLine, data)
      case NoLine => Stuck
      case TooLong => Did(Failing(p, TooBig), 0)
      case Line(text, used) => Did(head(p, text), used)
  }

  /** One step, counting the bytes it uses. */
  function Step(env: Env, head: LineTaker, p: Parser, data: string): Stepped<Parser> {
    match PhaseStep(env, head, p, data)
    case Stuck => Stuck
    case Did(p', n) => Did(p'.(total := p.total + n), n)
  }

  /** The stream ended: that completes a read-until-close body. */
  function AtEof(env: Env, p: Parser): Parser {
    if p.phase.Body? && p.body.Identity? then Call(env, p.(phase := Start), MsgComplete) else p
  }

  /** htparser_should_keep_alive. */
  predicate ShouldKeepAlive(p: Parser) {
    Close !in p.flags && (p.major * 10 + p.minor >= 11 || KeepAlive in p.flags)
  }

  /** Steps that use no bytes go down in this. */
  function Rank(p: Parser): nat {
    match p.phase
    case Body => 2
    case Complete => 4
    case Start => 3
    case Failed => 0
    case _ => 2
  }

  // ---------------------------------------------------------------------------------------
  // Runs
  // ---------------------------------------------------------------------------------------

  /** A message in its body phase has a body, and bytes to come where a count says so. */
  predicate WellFormed(p: Parser) {
    p.phase.Body? ==>
      && !p.body.NoBody?
      && (p.body.Length? || (p.body.Chunked? && p.chunk.Data?) ==> p.contentLen > 0)
  }

  lemma {:induction false} CallShape(env: Env, p: Parser, e: Event)
    ensures var p' := Call(env, p, e);
      && p'.trace == Append(p.trace, e)
      && (p'.phase.Failed? || p'.phase == p.phase)
      && p' == p.(phase := p'.phase, error := p'.error, flags := p'.flags, trace := p'.trace)
  {
  }

  /** Taking a line leaves the parser well-formed. */
  ghost predicate HeadOk(head: LineTaker) {
    forall p: Parser, line: string :: p.phase.HeadLine? || p.phase.Headers? || p.phase.Trailers? ==>
      WellFormed(head(p, line))
  }

  lemma {:induction false} BodyProgress(env: Env, p: Parser, data: string)
    requires p.phase.Body? && WellFormed(p)
    ensures var r := BodyStep(env, p, data);
      r.Did? ==> r.n <= |data| && (r.n == 0 ==> Rank(r.s) < Rank(p)) && WellFormed(r.s)
  {
    hide PieceStep, ChunkSizeStep, ChunkEndStep;
    if data != [] {
      PieceProgress(env, p, data);
      if p.body.Chunked? {
        SizeProgress(env, p, data);
        EndProgress(env, p, data);
      }
    }
  }

  /** A step of a body, when it is done. */
  predicate Progressed(p: Parser, data: string, r: Stepped<Parser>) {
    r.Did? ==> r.n <= |data| && (r.n == 0 ==> Rank(r.s) < Rank(p)) && WellFormed(r.s)
  }

  lemma {:induction false} PieceProgress(env: Env, p: Parser, data: string)
    requires p.phase.Body? && WellFormed(p) && data != []
    ensures InPiece(p) ==> Progressed(p, data, PieceStep(env, p, data))
  {
    hide Call;
    CallShape(env, p, BodyPiece(data[..PieceLength(p, |data|)]));
  }

  lemma {:induction false} SizeProgress(env: Env, p: Parser, data: string)
    requires p.phase.Body? && p.body.Chunked?
    ensures Progressed(p, data, ChunkSizeStep(env, p, data))
  {
    hide Call, ParseChunkSize, IndexOf;
    CallShape(env, p.(phase := Trailers, headerCount := 0), ChunksComplete);
    var line := TakeLine(env.maxLine, data);
    if line.Line? && ParseChunkSize(line.text).Some? {
      var size := ParseChunkSize(line.text).value;
      CallShape(env, p.(contentLen := size, origContentLen := size, chunk := Data), NewChunk(size));
    }
  }

  lemma {:induction false} EndProgress(env: Env, p: Parser, data: string)
    requires p.phase.Body? && p.body.Chunked?
    ensures Progressed(p, data, ChunkEndStep(env, p, data))
  {
    hide Call, IndexOf;
    CallShape(env, p.(chunk := Size), ChunkComplete);
  }

  /** A step uses bytes, or its rank goes down; it never uses more than there are. */
  lemma {:induction false} StepProgress(env: Env, head: LineTaker, p: Parser, data: string)
    requires HeadOk(head) && WellFormed(p)
    ensures var r := Step(env, head, p, data);
      r.Did? ==> r.n <= |data| && (r.n == 0 ==> Rank(r.s) < Rank(p)) && WellFormed(r.s) && r.s.total == p.total + r.n
  {
    if p.phase.Body? {
      BodyProgress(env, p, data);
    }
  }

  lemma {:induction false} CallAllPhase(env: Env, p: Parser, events: seq<Event>)
    ensures CallAll(env, p, events).phase == p.phase || CallAll(env, p, events).phase.Failed?
    decreases |events|
  {
    if events != [] {
      CallAllPhase(env, Call(env, p, events[0]), events[1..]);
    }
  }

  lemma {:induction false} NoteLengthsPhase(p: Parser, lengths: seq<string>)
    ensures NoteLengths(p, lengths).phase == p.phase || NoteLengths(p, lengths).phase.Failed?
    decreases |lengths|
  {
    if lengths != [] {
      NoteLengthsPhase(NoteOneLength(p, lengths[0]), lengths[1..]);
    }
  }

  lemma {:induction false} HeaderLinePhase(env: Env, p: Parser, line: string, trailer: bool)
    ensures HeaderLine(env, p, line, trailer).phase == p.phase || HeaderLine(env, p, line, trailer).phase.Failed?
  {
    hide SplitField, Call, NoteField;
    if SplitField(line).Some? {
      var (name, value) := SplitField(line).value;
      var p1 := Call(env, p, HdrKey(name));
      CallShape(env, p, HdrKey(name));
      NoteFieldPhase(env, p1, name, value);
      CallShape(env, if trailer then p1 else NoteField(env, p1, name, value), HdrVal(value));
    }
  }

  lemma {:induction false} NoteFieldPhase(env: Env, p: Parser, name: string, value: string)
    ensures NoteField(env, p, name, value).phase == p.phase || NoteField(env, p, name, value).phase.Failed?
  {
    hide Call, NoteTokens, NoteCodings, Multipart, NoteLengths;
    CallShape(env, p.(flags := p.flags + {HaveHost}), Hostname(value));
    NoteLengthsPhase(p, env.elements(value));
  }

  lemma {:induction false} HeadStepWellFormed(env: Env, p: Parser, line: string)
    requires p.phase.HeadLine? || p.phase.Headers? || p.phase.Trailers?
    ensures WellFormed(HeadStep(env, p, line))
  {
    hide StartLine, EndOfHead, HeaderLine;
    StartLinePhase(env, p, line);
    EndOfHeadWellFormed(env, p);
    HeaderLinePhase(env, p.(headerCount := p.headerCount + 1), line, p.phase.Trailers?);
  }

  lemma {:induction false} StartLinePhase(env: Env, p: Parser, line: string)
    ensures StartLine(env, p, line).phase.Headers? || StartLine(env, p, line).phase.Failed?
  {
    hide RequestLine, StatusLine, Call;
    var p1 := if env.kind.Request? then RequestLine(env, p, line) else StatusLine(p, line);
    CallShape(env, p1.(phase := Headers), HdrsBegin);
  }

  lemma {:induction false} EndOfHeadWellFormed(env: Env, p: Parser)
    requires !p.phase.Body?
    ensures WellFormed(EndOfHead(env, p))
  {
    hide Call;
    var p1 := Framing(env, p);
    CallShape(env, p1.(phase := if p1.body.NoBody? then Complete else Body), HdrsComplete(p1.body, p1.origContentLen));
  }

  lemma {:induction false} HeadIsOk(env: Env)
    ensures HeadOk(Head(env))
  {
    forall p: Parser, line | p.phase.HeadLine? || p.phase.Headers? || p.phase.Trailers?
      ensures WellFormed(Head(env)(p, line))
    {
      HeadStepWellFormed(env, p, line);
    }
  }

  predicate InHead(phase: Phase) {
    phase.HeadLine? || phase.Headers? || phase.Trailers?
  }

  /** What a step of the head does with the next line. */
  lemma {:induction false} HeadLineStep(env: Env, p: Parser, data: string)
    requires InHead(p.phase)
    ensures var r := Step(env, Head(env), p, data);
      match TakeLine(env.maxLine, data)
      case NoLine => r.Stuck?
      case TooLong => r == Did(Failing(p, TooBig), 0)
      case Line(text, used) => r == Did(HeadStep(env, p, text).(total := p.total + used), used)
    ensures forall p': Parser :: |p'.trace| >= |p.trace| ==> Calls(p, p') == |p'.trace| - |p.trace|
  {
    hide HeadStep;
  }

  lemma {:induction false} BeginStep(env: Env, p: Parser, data: string)
    requires p.phase.Start? && data != [] && data[0] != '\r' && data[0] != '\n'
    ensures Step(env, Head(env), p, data) == Did(Begins(env, p), 0)
    ensures Calls(p, Begins(env, p)) == 1 && |Begins(env, p).trace| == |p.trace| + 1
  {
  }

  /** Between two body bytes: the next step hands out a body piece. */
  predicate InPiece(p: Parser) {
    p.phase.Body? && (p.body.Length? || p.body.Identity? || (p.body.Chunked? && p.chunk.Data?))
  }

  /** How many hooks the step from p to p' called: a body piece is one call even when the trace joins it. */
  function Calls(p: Parser, p': Parser): nat {
    if InPiece(p) then 1 else if |p'.trace| >= |p.trace| then |p'.trace| - |p.trace| else 0
  }
}
