/**
 The parser of msgparser.c in its own form: an object whose fields every function updates, with the
 source's loops. Each method is proved against the machine of ParserSpec.dfy; `Snap` is the
 object's state as that machine's value.

 `trace` and `calls` are what the hooks have been told and how often: the hooks' memory.
 */
module Htparsers {
  import opened Prelude
  import opened Text
  import opened Incremental
  import opened ParserSpec
  import opened ParserRuns
  import opened Numbers

  // ---------------------------------------------------------------------------------------
  // Text helpers, with their loops
  // ---------------------------------------------------------------------------------------

  /** memchr. */
  method FindByte(s: string, c: char) returns (i: nat)
    ensures i == IndexOf(s, c)
  {
    i := 0;
    while i < |s| && s[i] != c
      invariant i <= |s| && forall j :: 0 <= j < i ==> s[j] != c
    {
      i := i + 1;
    }
    IndexOfUnique(s, c, i);
  }

  lemma {:induction false} SkipSpacesIs(s: string, i: nat)
    requires i <= |s| && (forall j :: 0 <= j < i ==> s[j] == ' ') && (i < |s| ==> s[i] != ' ')
    ensures SkipSpaces(s) == s[i..]
  {
    if i > 0 {
      SkipSpacesIs(s[1..], i - 1);
      assert s[1..][i - 1..] == s[i..];
    } else {
      assert s[0..] == s;
    }
  }

  method SkipBlanks(s: string) returns (t: string)
    ensures t == SkipSpaces(s)
  {
    var i := 0;
    while i < |s| && s[i] == ' '
      invariant i <= |s| && forall j :: 0 <= j < i ==> s[j] == ' '
    {
      i := i + 1;
    }
    SkipSpacesIs(s, i);
    t := s[i..];
  }

  /** next_token. */
  method TakeToken(s: string) returns (token: string, rest: string)
    ensures (token, rest) == NextToken(s)
  {
    var t := SkipBlanks(s);
    var n := FindByte(t, ' ');
    token := t[..n];
    rest := SkipBlanks(t[n..]);
  }

  /** method_from: the table is searched for an entry equal to the token. */
  method MethodFrom(m: string) returns (found: string)
    ensures found == MethodName(m)
  {
    for i := 0 to |METHODS|
      invariant m !in METHODS[..i]
    {
      if METHODS[i] == m {
        return m;
      }
      assert METHODS[..i + 1] == METHODS[..i] + [METHODS[i]];
    }
    assert METHODS[..|METHODS|] == METHODS;
    found := "";
  }

  lemma {:induction false} TrimLeftIs(s: string, i: nat)
    requires i <= |s| && (forall j :: 0 <= j < i ==> Blank(s[j])) && (i < |s| ==> !Blank(s[i]))
    ensures TrimLeft(s) == s[i..]
  {
    if i > 0 {
      TrimLeftIs(s[1..], i - 1);
      assert s[1..][i - 1..] == s[i..];
    } else {
      assert s[0..] == s;
    }
  }

  lemma {:induction false} TrimRightIs(s: string, n: nat)
    requires n <= |s| && (forall j :: n <= j < |s| ==> Blank(s[j])) && (n > 0 ==> !Blank(s[n - 1]))
    ensures TrimRight(s) == s[..n]
  {
    if n < |s| {
      var init := s[..|s| - 1];
      TrimRightIs(init, n);
      assert init[..n] == s[..n];
    } else {
      assert s[..n] == s;
    }
  }

  /** The two loops of parse_header that drop the blanks around a value. */
  method Trim(s: string) returns (t: string)
    ensures t == TrimRight(TrimLeft(s))
  {
    var i := 0;
    while i < |s| && Blank(s[i])
      invariant i <= |s| && forall j :: 0 <= j < i ==> Blank(s[j])
    {
      i := i + 1;
    }
    TrimLeftIs(s, i);
    t := s[i..];
    var n := |t|;
    while n > 0 && Blank(t[n - 1])
      invariant 0 <= n <= |t| && forall j :: n <= j < |t| ==> Blank(t[j])
    {
      n := n - 1;
    }
    TrimRightIs(t, n);
    t := t[..n];
  }

  /** take_line. */
  method NextLine(max: nat, data: string) returns (r: TakenLine)
    ensures r == TakeLine(max, data)
    ensures r.Line? ==> 0 < r.used <= |data|
  {
    var nl := FindByte(data, '\n');
    if nl == |data| {
      return if max > 0 && |data| > max then TooLong else NoLine;
    }
    var n := nl;
    if n > 0 && data[n - 1] == '\r' {
      n := n - 1;
    }
    if max > 0 && n > max {
      return TooLong;
    }
    r := Line(data[..n], nl + 1);
  }

  // ---------------------------------------------------------------------------------------
  // The parser
  // ---------------------------------------------------------------------------------------

  class Htparser {
    const env: Env
    const pause: nat -> bool

    var phase: Phase
    var error: Error
    var body: BodyKind
    var chunk: ChunkPhase
    var method_: string
    var scheme: Scheme
    var status: nat
    var major: nat
    var minor: nat
    var flags: Flags
    var contentLen: nat
    var origContentLen: nat
    var headerCount: nat
    var emptyLines: nat
    var bytesRead: nat
    var total: nat
    var paused: bool
    var trace: seq<Event>
    var calls: nat

    /** Bytes the current run has used and not yet added to `total`. */
    ghost var pending: nat

    /** The object's state as the machine's. */
    ghost function Snap(): Parser
      reads this
    {
      Parser(phase, error, body, chunk, method_, scheme, status, major, minor, flags, contentLen, origContentLen,
             headerCount, emptyLines, total + pending, trace)
    }

    lemma {:induction false} SnapShows()
      ensures Snap().phase == phase && Snap().trace == trace && Snap().total == total + pending
    {
    }

    /** Since the trace was t0 and c0 hooks had been called: one call per event, and every pause asked for is set. */
    ghost predicate Counted(t0: seq<Event>, c0: nat, p0: bool)
      reads this
    {
      |trace| >= |t0| && calls == c0 + |trace| - |t0| && paused == (p0 || Pauses(pause, c0, calls))
    }

    /** htparser_new_ and htparser_init. */
    constructor (env: Env, pause: nat -> bool)
      ensures this.env == env && this.pause == pause
      ensures Snap() == FRESH && !paused && calls == 0 && bytesRead == 0 && pending == 0
    {
      this.env, this.pause := env, pause;
      phase, error, body, chunk := Start, NoError, NoBody, Size;
      method_, scheme, status, major, minor, flags := "", NoScheme, 0, 0, 0, {};
      contentLen, origContentLen, headerCount, emptyLines := 0, 0, 0, 0;
      bytesRead, total, paused, trace, calls, pending := 0, 0, false, [], 0, 0;
    }

    /** fail. */
    method FailWith(e: Error)
      modifies this`phase, this`error
      ensures Snap() == Failing(old(Snap()), e) && phase.Failed?
    {
      error := e;
      phase := Failed;
    }

    /** message_reset; paused, totals and the hooks' memory stay. */
    method MessageReset()
      modifies this`phase, this`error, this`body, this`chunk, this`method_, this`scheme, this`status, this`major,
               this`minor, this`flags, this`contentLen, this`origContentLen, this`headerCount, this`emptyLines
      ensures Snap() == Reset(old(Snap()))
    {
      ClearStatus();
      phase, error, body, chunk := Start, NoError, NoBody, Size;
      contentLen, origContentLen, headerCount, emptyLines := 0, 0, 0, 0;
    }

    /** What message_reset forgets of the start line and the header fields. */
    method ClearStatus()
      modifies this`method_, this`scheme, this`status, this`major, this`minor, this`flags
      ensures Snap() == old(Snap()).(method_ := "", scheme := NoScheme, status := 0, major := 0, minor := 0,
        flags := {})
    {
      SetMethod("");
      SetScheme(NoScheme);
      SetVersion(0, 0);
      status, flags := 0, {};
    }

    /** HOOK and DHOOK: the hook is called; it may pause the parser, ask to skip the body, or fail the message. */
    method Hook(e: Event) returns (ok: bool)
      requires !phase.Failed?
      modifies this`trace, this`calls, this`paused, this`flags, this`phase, this`error
      ensures Snap() == Call(env, old(Snap()), e)
      ensures calls == old(calls) + 1 && paused == (old(paused) || pause(old(calls)))
      ensures ok <==> !phase.Failed?
    {
      Note(e);
      var v := env.verdict(trace);
      if v == SkipBody {
        flags := flags + {Skipping};
      } else if v == Fail {
        FailWith(UserError);
      }
      ok := v != Fail;
    }

    /** The hook itself: it remembers what it was told and may set the pause flag. */
    method Note(e: Event)
      modifies this`trace, this`calls, this`paused
      ensures Snap() == old(Snap()).(trace := Append(old(trace), e))
      ensures calls == old(calls) + 1 && paused == (old(paused) || pause(old(calls)))
    {
      trace := Append(trace, e);
      if pause(calls) {
        paused := true;
      }
      calls := calls + 1;
    }

    /** A hook that is not handed body bytes. */
    method Tell(e: Event) returns (ok: bool)
      requires !phase.Failed? && !e.BodyPiece?
      modifies this`trace, this`calls, this`paused, this`flags, this`phase, this`error
      ensures Snap() == Call(env, old(Snap()), e)
      ensures Counted(old(trace), old(calls), old(paused))
      ensures ok <==> !phase.Failed?
    {
      ok := Hook(e);
      assert |trace| == |old(trace)| + 1;
      assert Pauses(pause, old(calls), calls) <==> pause(old(calls));
    }

    // -------------------------------------------------------------------------------------
    // The start line
    // -------------------------------------------------------------------------------------

    /** A row of hooks joined by `&&` in the source: the first that fails ends it. */
    method TellAll(events: seq<Event>) returns (ok: bool)
      requires !phase.Failed? && forall i :: 0 <= i < |events| ==> !events[i].BodyPiece?
      modifies this`trace, this`calls, this`paused, this`flags, this`phase, this`error
      ensures Snap() == CallAll(env, old(Snap()), events)
      ensures Counted(old(trace), old(calls), old(paused))
      ensures ok <==> !phase.Failed?
    {
      var i := 0;
      while i < |events|
        invariant i <= |events| && !phase.Failed?
        invariant CallAll(env, Snap(), events[i..]) == CallAll(env, old(Snap()), events)
        invariant Counted(old(trace), old(calls), old(paused))
      {
        ghost var c1 := calls;
        ok := Tell(events[i]);
        PausesJoin(pause, old(calls), c1, calls);
        assert events[i..][0] == events[i] && events[i..][1..] == events[i + 1..];
        if !ok {
          return;
        }
        i := i + 1;
      }
      ok := true;
    }

    /** emit_target; absolute-form and CONNECT targets go through htstring's URI parser. */
    method EmitTarget(t: string) returns (ok: bool)
      requires !phase.Failed? && t != []
      modifies this`trace, this`calls, this`paused, this`flags, this`phase, this`error, this`scheme
      ensures Snap() == Target(env, old(Snap()), t)
      ensures Counted(old(trace), old(calls), old(paused))
      ensures ok <==> !phase.Failed?
    {
      hide TargetParts, Failing;
      var own := t[0] == '/' || t == "*";
      var u := BadUri;
      if !own {
        u := env.uri(t, method_ == "CONNECT");
        if u == BadUri {
          FailWith(InvalidRequestLine);
          return false;
        }
      }
      ok := EmitParts(t, u);
    }

    /** The scheme of a target, then its hooks. */
    method EmitParts(t: string, u: Uri) returns (ok: bool)
      requires !phase.Failed? && t != []
      modifies this`trace, this`calls, this`paused, this`flags, this`phase, this`error, this`scheme
      ensures Snap() == TargetParts(env, old(Snap()), t, u)
      ensures Counted(old(trace), old(calls), old(paused))
      ensures ok <==> !phase.Failed?
    {
      hide CallAll, TargetEvents, TargetScheme, Failing;
      SetScheme(TargetScheme(env, t, u));
      if scheme == UnknownScheme {
        FailWith(InvalidScheme);
        return false;
      }
      NoBodyPieces(t, u);
      ok := TellAll(TargetEvents(t, u));
    }

    method SetScheme(s: Scheme)
      modifies this`scheme
      ensures Snap() == old(Snap()).(scheme := s)
    {
      scheme := s;
    }

    method EmitMethodAndTarget(m: string, t: string) returns (ok: bool)
      requires !phase.Failed? && t != []
      modifies this`trace, this`calls, this`paused, this`flags, this`phase, this`error, this`scheme
      ensures Snap() == MethodAndTarget(env, old(Snap()), m, t)
      ensures Counted(old(trace), old(calls), old(paused))
      ensures ok <==> !phase.Failed?
    {
      ok := Tell(MethodIs(m));
      if ok {
        ghost var c1 := calls;
        ok := EmitTarget(t);
        PausesJoin(pause, old(calls), c1, calls);
      }
    }

    method ParseRequestParts(name: string, m: string, t: string, v: string, rest: string) returns (ok: bool)
      requires !phase.Failed?
      modifies this`trace, this`calls, this`paused, this`flags, this`phase, this`error, this`scheme,
               this`method_, this`major, this`minor
      ensures Snap() == RequestParts(env, old(Snap()), name, m, t, v, rest)
      ensures Counted(old(trace), old(calls), old(paused))
      ensures ok <==> !phase.Failed?
    {
      hide MethodAndTarget, Version;
      SetMethod(name);
      if method_ == "" {
        FailWith(InvalidMethod);
        return false;
      }
      if t == "" || rest != "" {
        FailWith(InvalidRequestLine);
        return false;
      }
      var version := Version(v);
      if version.None? {
        FailWith(InvalidVersion);
        return false;
      }
      SetVersion(version.value.0, version.value.1);
      ok := EmitMethodAndTarget(m, t);
    }

    method SetMethod(name: string)
      modifies this`method_
      ensures Snap() == old(Snap()).(method_ := name)
    {
      method_ := name;
    }

    method SetVersion(major: nat, minor: nat)
      modifies this`major, this`minor
      ensures Snap() == old(Snap()).(major := major, minor := minor)
    {
      this.major, this.minor := major, minor;
    }

    /** parse_request_line. */
    method ParseRequestLine(line: string) returns (ok: bool)
      requires !phase.Failed?
      modifies this`trace, this`calls, this`paused, this`flags, this`phase, this`error, this`scheme,
               this`method_, this`major, this`minor
      ensures Snap() == RequestLine(env, old(Snap()), line)
      ensures Counted(old(trace), old(calls), old(paused))
      ensures ok <==> !phase.Failed?
    {
      var m, line1 := TakeToken(line);
      var t, line2 := TakeToken(line1);
      var v, line3 := TakeToken(line2);
      var name := MethodFrom(m);
      ok := ParseRequestParts(name, m, t, v, line3);
    }

    /** parse_status_line. */
    method ParseStatusLine(line: string) returns (ok: bool)
      modifies this`phase, this`error, this`major, this`minor, this`status
      requires !phase.Failed?
      ensures Snap() == StatusLine(old(Snap()), line)
      ensures ok <==> !phase.Failed?
    {
      if |line| < 12 || Version(line[..8]).None? {
        FailWith(InvalidVersion);
        return false;
      }
      major, minor := Version(line[..8]).value.0, Version(line[..8]).value.1;
      hide StatusCode, Version;
      ok := ParseStatusCode(line);
    }

    method ParseStatusCode(line: string) returns (ok: bool)
      requires !phase.Failed? && |line| >= 12
      modifies this`phase, this`error, this`status
      ensures Snap() == StatusCode(old(Snap()), line)
      ensures ok <==> !phase.Failed?
    {
      DigitsAfterVersion(line);
      if line[8] != ' ' || !Digit(line[9]) || !Digit(line[10]) || !Digit(line[11]) || (|line| > 12 && line[12] != ' ') {
        FailWith(InvalidStatus);
        return false;
      }
      hide Digits, Decimal, Failing;
      status := DigitValue(line[9]) * 100 + DigitValue(line[10]) * 10 + DigitValue(line[11]);
      if status < 100 {
        FailWith(InvalidStatus);
        return false;
      }
      ok := true;
    }

    // -------------------------------------------------------------------------------------
    // Header fields
    // -------------------------------------------------------------------------------------

    /** note_transfer_encoding. */
    method NoteTransferEncoding(value: string)
      modifies this`flags
      ensures flags == NoteCodings(old(flags) + {HaveCoding}, CodingsOf(env, value))
    {
      var es := env.elements(value);
      ghost var cs := CodingsOf(env, value);
      flags := flags + {HaveCoding};
      var i := 0;
      while i < |es|
        invariant i <= |es|
        invariant NoteCodings(flags, cs[i..]) == NoteCodings(old(flags) + {HaveCoding}, cs)
      {
        assert cs[i..][0] == cs[i] == CodingOf(env, es[i]) && cs[i..][1..] == cs[i + 1..];
        ghost var before := flags;
        if env.equalsI(es[i], "chunked") {
          if ChunkedLast in flags {
            flags := flags + {CodingBad};
          }
          flags := flags + {ChunkedLast};
        } else {
          if ChunkedLast in flags {
            flags := flags + {CodingBad};
          }
          if !(env.equalsI(es[i], "gzip") || env.equalsI(es[i], "deflate") || env.equalsI(es[i], "compress")
               || env.equalsI(es[i], "x-gzip")) {
            flags := flags + {CodingUnknown};
          }
        }
        assert flags == NoteCoding(before, cs[i]);
        i := i + 1;
      }
    }

    /** note_connection. */
    method NoteConnection(value: string)
      modifies this`flags
      ensures flags == NoteTokens(old(flags), TokensOf(env, value))
    {
      var es := env.elements(value);
      ghost var ts := TokensOf(env, value);
      var i := 0;
      while i < |es|
        invariant i <= |es|
        invariant NoteTokens(flags, ts[i..]) == NoteTokens(old(flags), ts)
      {
        assert ts[i..][0] == ts[i] == TokenOf(env, es[i]) && ts[i..][1..] == ts[i + 1..];
        if env.equalsI(es[i], "close") {
          flags := flags + {Close};
        } else if env.equalsI(es[i], "keep-alive") {
          flags := flags + {KeepAlive};
        }
        i := i + 1;
      }
    }

    /** note_content_length. */
    /** One element of a Content-Length value. */
    method TakeLength(e: string) returns (ok: bool)
      requires !phase.Failed?
      modifies this`flags, this`origContentLen, this`phase, this`error
      ensures Snap() == NoteOneLength(old(Snap()), e)
      ensures ok <==> !phase.Failed?
    {
      hide ParseU64;
      var n := ReadU64(e);
      if n.None? || (HaveLength in flags && n.value != origContentLen) {
        FailWith(InvalidHeader);
        return false;
      }
      origContentLen := n.value;
      flags := flags + {HaveLength};
      ok := true;
    }

    method NoteLength(value: string) returns (ok: bool)
      requires !phase.Failed?
      modifies this`flags, this`origContentLen, this`phase, this`error
      ensures Snap() == NoteContentLength(old(Snap()), env.elements(value))
      ensures ok <==> !phase.Failed?
    {
      hide NoteOneLength, Failing;
      var es := env.elements(value);
      var i, any := 0, false;
      while i < |es|
        invariant i <= |es| && !phase.Failed? && any == (i > 0)
        invariant NoteLengths(Snap(), es[i..]) == NoteLengths(old(Snap()), es)
      {
        assert es[i..][0] == es[i] && es[i..][1..] == es[i + 1..];
        ok := TakeLength(es[i]);
        if !ok {
          return;
        }
        any := true;
        i := i + 1;
      }
      if !any {
        FailWith(InvalidHeader);
      }
      ok := any;
    }

    /** The fields parse_header looks at itself. */
    method NoteHeader(name: string, value: string) returns (ok: bool)
      requires !phase.Failed?
      modifies this`trace, this`calls, this`paused, this`flags, this`phase, this`error, this`origContentLen
      ensures Snap() == NoteField(env, old(Snap()), name, value)
      ensures Counted(old(trace), old(calls), old(paused))
      ensures ok <==> !phase.Failed?
    {
      hide Call, NoteTokens, NoteContentLength, NoteCodings, Multipart;
      ok := true;
      if |name| == 4 && env.equalsI(name, "Host") {
        ok := NoteHost(value);
      } else if |name| == 10 && env.equalsI(name, "Connection") {
        NoteConnection(value);
      } else if |name| == 12 && env.equalsI(name, "Content-Type") {
        NoteType(value);
      } else if |name| == 14 && env.equalsI(name, "Content-Length") {
        ok := NoteLength(value);
      } else if |name| == 17 && env.equalsI(name, "Transfer-Encoding") {
        NoteTransferEncoding(value);
      }
    }

    method NoteHost(value: string) returns (ok: bool)
      requires !phase.Failed?
      modifies this`trace, this`calls, this`paused, this`flags, this`phase, this`error
      ensures Snap() == var p := old(Snap());
        if HaveHost in p.flags then p else Call(env, p.(flags := p.flags + {HaveHost}), Hostname(value))
      ensures Counted(old(trace), old(calls), old(paused))
      ensures ok <==> !phase.Failed?
    {
      hide Call;
      ok := true;
      if HaveHost !in flags {
        flags := flags + {HaveHost};
        ok := Tell(Hostname(value));
      }
    }

    method NoteType(value: string)
      modifies this`flags
      ensures flags == if HaveType in old(flags) then old(flags)
                       else old(flags) + {HaveType} + (if Multipart(env, value) then {IsMultipart} else {})
    {
      if HaveType !in flags {
        flags := flags + {HaveType};
        if |value| >= 9 && env.equalsI(value[..9], "multipart") {
          flags := flags + {IsMultipart};
        }
      }
    }

    /** parse_header. */
    method ParseHeader(line: string, trailer: bool) returns (ok: bool)
      requires !phase.Failed? && line != []
      modifies this`trace, this`calls, this`paused, this`flags, this`phase, this`error, this`origContentLen
      ensures Snap() == HeaderLine(env, old(Snap()), line, trailer)
      ensures Counted(old(trace), old(calls), old(paused))
      ensures ok <==> !phase.Failed?
    {
      var colon := FindByte(line, ':');
      if Blank(line[0]) || colon == |line| || colon == 0 || Blank(line[colon - 1]) {
        FailWith(InvalidHeader);
        return false;
      }
      var name := line[..colon];
      var value := Trim(line[colon + 1..]);
      assert SplitField(line) == Some((name, value));
      ok := TellField(name, value, trailer);
    }

    method TellField(name: string, value: string, trailer: bool) returns (ok: bool)
      requires !phase.Failed?
      modifies this`trace, this`calls, this`paused, this`flags, this`phase, this`error, this`origContentLen
      ensures Snap() == ToldField(env, old(Snap()), name, value, trailer)
      ensures Counted(old(trace), old(calls), old(paused))
      ensures ok <==> !phase.Failed?
    {
      ok := Tell(HdrKey(name));
      if !ok {
        return;
      }
      ghost var c1 := calls;
      if !trailer {
        ok := NoteHeader(name, value);
        PausesJoin(pause, old(calls), c1, calls);
        if !ok {
          return;
        }
      }
      ghost var c2 := calls;
      ok := Tell(HdrVal(value));
      PausesJoin(pause, old(calls), c2, calls);
    }

    // -------------------------------------------------------------------------------------
    // Framing
    // -------------------------------------------------------------------------------------

    /** framing. */
    method FrameBody() returns (ok: bool)
      requires !phase.Failed?
      modifies this`body, this`contentLen, this`chunk, this`phase, this`error
      ensures Snap() == Framing(env, old(Snap()))
      ensures ok <==> !phase.Failed?
    {
      var response := env.kind.Response?;
      if Skipping in flags {
        body := NoBody;
      } else if response && (status < 200 || status == 204 || status == 304) {
        body := NoBody;
      } else if HaveCoding in flags {
        if CodingBad in flags {
          FailWith(InvalidHeader);
          return false;
        }
        if !response && (ChunkedLast !in flags || CodingUnknown in flags || HaveLength in flags) {
          FailWith(InvalidHeader);
          return false;
        }
        body := if ChunkedLast in flags then Chunked else Identity;
      } else if HaveLength in flags {
        body := if origContentLen != 0 then Length else NoBody;
      } else if response && major * 10 + minor < 11 && KeepAlive !in flags {
        body := Identity;
      } else {
        body := NoBody;
      }
      contentLen := if body.Length? then origContentLen else 0;
      chunk := Size;
      ok := true;
    }

    method EndHead()
      requires phase.Headers?
      modifies this`trace, this`calls, this`paused, this`flags, this`phase, this`error, this`body, this`contentLen,
        this`chunk
      ensures Snap() == EndOfHead(env, old(Snap()))
      ensures Counted(old(trace), old(calls), old(paused))
    {
      hide Framing, Announced;
      var ok := FrameBody();
      if ok {
        AnnounceBody();
      }
    }

    method AnnounceBody()
      requires !phase.Failed?
      modifies this`trace, this`calls, this`paused, this`flags, this`phase, this`error, this`body
      ensures Snap() == Announced(env, old(Snap()))
      ensures Counted(old(trace), old(calls), old(paused))
    {
      hide Call;
      phase := if body.NoBody? then Complete else Body;
      var ok := Tell(HdrsComplete(body, origContentLen));
      if ok && Skipping in flags {
        DropBody();
      }
    }

    method DropBody()
      modifies this`phase, this`body
      ensures Snap() == old(Snap()).(body := NoBody, phase := Complete)
    {
      body := NoBody;
      phase := Complete;
    }

    /** One line of parse_head. */
    method TakeHeadLine(line: string)
      requires phase.HeadLine? || phase.Headers? || phase.Trailers?
      modifies this`trace, this`calls, this`paused, this`flags, this`phase, this`error, this`body, this`contentLen,
               this`chunk, this`scheme, this`method_, this`major, this`minor, this`status, this`origContentLen,
                 this`headerCount
      ensures Snap() == HeadStep(env, old(Snap()), line)
      ensures Counted(old(trace), old(calls), old(paused))
    {
      hide StartLine, EndOfHead, HeaderLine;
      if phase.HeadLine? {
        TakeStartLine(line);
      } else if line == "" {
        if phase.Trailers? {
          phase := Complete;
        } else {
          EndHead();
        }
      } else if env.maxHeaders > 0 && headerCount >= env.maxHeaders {
        FailWith(TooBig);
      } else {
        headerCount := headerCount + 1;
        var _ := ParseHeader(line, phase.Trailers?);
      }
    }

    method TakeStartLine(line: string)
      requires phase.HeadLine?
      modifies this`trace, this`calls, this`paused, this`flags, this`phase, this`error,
               this`scheme, this`method_, this`major, this`minor, this`status
      ensures Snap() == StartLine(env, old(Snap()), line)
      ensures Counted(old(trace), old(calls), old(paused))
    {
      hide RequestLine, StatusLine, Call;
      var ok;
      if env.kind.Request? {
        ok := ParseRequestLine(line);
      } else {
        ok := ParseStatusLine(line);
      }
      if ok {
        ghost var c1 := calls;
        BeginHeaders();
        PausesJoin(pause, old(calls), c1, calls);
      }
    }

    method BeginHeaders()
      requires !phase.Failed?
      modifies this`trace, this`calls, this`paused, this`flags, this`phase, this`error
      ensures Snap() == Call(env, old(Snap()).(phase := Headers), HdrsBegin)
      ensures Counted(old(trace), old(calls), old(paused))
    {
      hide Call;
      phase := Headers;
      var _ := Tell(HdrsBegin);
    }

    // -------------------------------------------------------------------------------------
    // Bodies
    // -------------------------------------------------------------------------------------

    /** The length-delimited, read-until-close and chunk-data cases of parse_body. */
    method ParsePiece(data: string) returns (n: nat)
      requires WellFormed(Snap()) && InPiece(Snap()) && data != []
      modifies this`trace, this`calls, this`paused, this`flags, this`phase, this`error, this`contentLen, this`chunk
      ensures PieceStep(env, old(Snap()), data) == Did(Snap(), n)
      ensures calls == old(calls) + 1 && paused == (old(paused) || pause(old(calls)))
    {
      hide Call;
      CallShape(env, Snap(), BodyPiece(data[..PieceLength(Snap(), |data|)]));
      n := |data|;
      if !body.Identity? && n > contentLen {
        n := contentLen;
      }
      var ok := Hook(BodyPiece(data[..n]));
      if ok && !body.Identity? {
        TakePiece(n);
      }
    }

    method TakePiece(n: nat)
      requires n <= contentLen
      modifies this`contentLen, this`phase, this`chunk
      ensures Snap() == PieceTaken(old(Snap()), n)
    {
      contentLen := contentLen - n;
      if contentLen == 0 {
        if body.Length? {
          phase := Complete;
        } else {
          chunk := DataEnd;
        }
      }
    }

    /** The chunk-size case of parse_body; `stuck` when the line is not complete. */
    method ParseSizeLine(data: string) returns (stuck: bool, n: nat)
      requires phase.Body?
      modifies this`trace, this`calls, this`paused, this`flags, this`phase, this`error, this`contentLen,
               this`origContentLen, this`chunk, this`headerCount
      ensures ChunkSizeStep(env, old(Snap()), data) == if stuck then Stuck else Did(Snap(), n)
      ensures stuck ==> Snap() == old(Snap()) && n == 0
      ensures Counted(old(trace), old(calls), old(paused))
    {
      stuck := false;
      var r := NextLine(env.maxLine, data);
      if !r.Line? {
        stuck := r.NoLine?;
        if r.TooLong? {
          FailWith(TooBig);
        }
        return stuck, 0;
      }
      n := r.used;
      var size := ReadChunkSize(r.text);
      if size.None? {
        FailWith(InvalidChunkSize);
      } else {
        BeginChunk(size.value);
      }
    }

    method BeginChunk(size: nat)
      requires phase.Body?
      modifies this`trace, this`calls, this`paused, this`flags, this`phase, this`error, this`contentLen,
               this`origContentLen, this`chunk, this`headerCount
      ensures Snap() == ChunkBegins(env, old(Snap()), size)
      ensures Counted(old(trace), old(calls), old(paused))
    {
      hide Call;
      if size == 0 {
        phase := Trailers;
        headerCount := 0;
        var _ := Tell(ChunksComplete);
      } else {
        SetChunk(size);
        var _ := Tell(NewChunk(size));
      }
    }

    method SetChunk(size: nat)
      modifies this`contentLen, this`origContentLen, this`chunk
      ensures Snap() == old(Snap()).(contentLen := size, origContentLen := size, chunk := Data)
    {
      contentLen, origContentLen, chunk := size, size, Data;
    }

    /** The end-of-chunk case of parse_body. */
    method ParseChunkEnd(data: string) returns (stuck: bool, n: nat)
      requires phase.Body?
      modifies this`trace, this`calls, this`paused, this`flags, this`phase, this`error, this`chunk
      ensures ChunkEndStep(env, old(Snap()), data) == if stuck then Stuck else Did(Snap(), n)
      ensures stuck ==> Snap() == old(Snap()) && n == 0
      ensures Counted(old(trace), old(calls), old(paused))
    {
      hide Call;
      var r := NextLine(env.maxLine, data);
      if r.NoLine? && |data| < 2 {
        return true, 0;
      }
      stuck, n := false, 0;
      if !r.Line? || r.text != "" {
        FailWith(InvalidChunk);
        return;
      }
      chunk := Size;
      var _ := Tell(ChunkComplete);
      n := r.used;
    }

    /** parse_body: one step. */
    method ParseBody(data: string) returns (stuck: bool, n: nat)
      requires phase.Body? && WellFormed(Snap()) && data != [] && !paused
      modifies this`trace, this`calls, this`paused, this`flags, this`phase, this`error, this`contentLen,
               this`origContentLen, this`chunk, this`headerCount
      ensures BodyStep(env, old(Snap()), data) == if stuck then Stuck else Did(Snap(), n)
      ensures stuck ==> Snap() == old(Snap()) && n == 0
      ensures n <= |data| && (n == 0 && !stuck ==> phase.Failed?)
      ensures calls == old(calls) + (if stuck then 0 else Calls(old(Snap()), Snap())) &&
        paused == Pauses(pause, old(calls), calls)
    {
      hide PieceStep, ChunkSizeStep, ChunkEndStep;
      ghost var p := Snap();
      BodyProgress(env, p, data);
      if !body.Chunked? || chunk.Data? {
        n := ParsePiece(data);
        stuck := false;
        assert Pauses(pause, old(calls), calls) <==> pause(old(calls));
      } else if chunk.Size? {
        stuck, n := ParseSizeLine(data);
      } else {
        stuck, n := ParseChunkEnd(data);
      }
    }

    // -------------------------------------------------------------------------------------
    // The run loop
    // -------------------------------------------------------------------------------------

    /** The machine this object is, and where a run that began at s0 on `data` has got to. */
    ghost predicate Running(s0: Parser, c0: nat, data: string, off: nat)
      reads this
    {
      var m := ParserMachine(env, Head(env));
      && Sound(m) && WellFormed(s0) && WellFormed(Snap()) && off <= |data| && s0.total + off == total + pending
      && RunsTo(m, pause, s0, c0, data, off, Snap(), calls, paused)
    }

    method RunHeadLine(ghost s0: Parser, ghost c0: nat, ghost all: string, ghost at: nat, text: string, ghost used: nat)
      requires InHead(phase) && !paused && at <= |all| && Running(s0, c0, all, at)
      requires TakeLine(env.maxLine, all[at..]) == Line(text, used)
      modifies this`trace, this`calls, this`paused, this`flags, this`phase, this`error, this`body, this`contentLen,
               this`chunk, this`scheme, this`method_, this`major, this`minor, this`status, this`origContentLen,
               this`headerCount, this`pending
      ensures at + used <= |all| && Running(s0, c0, all, at + used)
    {
      hide Step, RunsTo, Sound, HeadStep, WellFormed, Calls, Pauses;
      ghost var p, c := Snap(), calls;
      HeadLineStep(env, p, all[at..]);
      TakeHeadLine(text);
      pending := pending + used;
      StepRuns(env, pause, s0, c0, all, at, p, c, Snap(), used);
    }

    method RunTooLong(ghost s0: Parser, ghost c0: nat, ghost all: string, ghost at: nat)
      requires InHead(phase) && !paused && at <= |all| && Running(s0, c0, all, at)
      requires TakeLine(env.maxLine, all[at..]).TooLong?
      modifies this`phase, this`error
      ensures Running(s0, c0, all, at) && phase.Failed?
    {
      hide Step, RunsTo, Sound, HeadStep, WellFormed, Calls, Pauses, TakeLine;
      ghost var p, c := Snap(), calls;
      HeadLineStep(env, p, all[at..]);
      FailWith(TooBig);
      StepRuns(env, pause, s0, c0, all, at, p, c, Snap(), 0);
    }

    /** parse_head: its lines, for as long as complete ones are there. */
    method ParseHead(ghost s0: Parser, ghost c0: nat, ghost all: string, ghost base: nat,
        data: string) returns (off: nat)
      requires base <= |all| && data == all[base..] && !paused && Running(s0, c0, all, base)
      modifies this`trace, this`calls, this`paused, this`flags, this`phase, this`error, this`body, this`contentLen,
               this`chunk, this`scheme, this`method_, this`major, this`minor, this`status, this`origContentLen,
               this`headerCount, this`pending
      ensures off <= |data| && Running(s0, c0, all, base + off)
      ensures !paused && InHead(phase) ==> TakeLine(env.maxLine, data[off..]).NoLine?
      ensures off == 0 ==> !paused && (phase == old(phase) || phase.Failed?)
    {
      hide RunsTo, Sound, TakeLine, WellFormed, Snap;
      off := 0;
      while InHead(phase) && !paused
        invariant off <= |data| && Running(s0, c0, all, base + off) 
        invariant off == 0 ==> phase == old(phase) && !paused
        decreases |data| - off, !phase.Failed?
      {
        assert data[off..] == all[base + off..];
        var r := NextLine(env.maxLine, data[off..]);
        if !r.Line? {
          if r.TooLong? {
            RunTooLong(s0, c0, all, base + off);
          }
          return;
        }
        RunHeadLine(s0, c0, all, base + off, r.text, r.used);
        off := off + r.used;
      }
    }

    /** The start case of htparser_run: empty lines are skipped, any other byte begins a message. */
    method BeginMessage(ghost s0: Parser, ghost c0: nat, data: string, from: nat) returns (off: nat)
      requires phase.Start? && !paused && from <= |data| && Running(s0, c0, data, from)
      modifies this`phase, this`error, this`body, this`chunk, this`method_, this`scheme, this`status, this`major,
               this`minor, this`flags, this`contentLen, this`origContentLen, this`headerCount, this`emptyLines,
               this`trace, this`calls, this`paused, this`pending
      ensures from <= off <= |data| && Running(s0, c0, data, off)
      ensures phase.Start? ==> off == |data| && !paused
      ensures phase.Start? || phase.HeadLine? || phase.Failed?
    {
      off := SkipEmptyLines(s0, c0, data, from);
      if off < |data| && !phase.Failed? {
        StartMessage(s0, c0, data, off);
      }
    }

    /** A step that uses no bytes: the head line begins. */
    method StartMessage(ghost s0: Parser, ghost c0: nat, ghost data: string, ghost off: nat)
      requires phase.Start? && !paused && off < |data| && Running(s0, c0, data, off)
      requires data[off] != '\r' && data[off] != '\n'
      modifies this`phase, this`error, this`body, this`chunk, this`method_, this`scheme, this`status, this`major,
               this`minor, this`flags, this`contentLen, this`origContentLen, this`headerCount, this`emptyLines,
               this`trace, this`calls, this`paused
      ensures Running(s0, c0, data, off)
      ensures phase.HeadLine? || phase.Failed?
    {
      hide Step, RunsTo, Sound, Begins, WellFormed, Calls, Pauses, Snap;
      ghost var p, c := Snap(), calls;
      SnapShows();
      MessageBegins();
      SnapShows();
      BeginStep(env, p, data[off..]);
      StepRuns(env, pause, s0, c0, data, off, p, c, Snap(), 0);
    }

    method MessageBegins()
      requires phase.Start?
      modifies this`phase, this`error, this`body, this`chunk, this`method_, this`scheme, this`status, this`major,
               this`minor, this`flags, this`contentLen, this`origContentLen, this`headerCount, this`emptyLines,
               this`trace, this`calls, this`paused
      ensures Snap() == Begins(env, old(Snap()))
      ensures Counted(old(trace), old(calls), old(paused))
      ensures phase.HeadLine? || phase.Failed?
    {
      hide Reset;
      MessageReset();
      phase := HeadLine;
      var _ := Tell(MsgBegin);
    }

    /** One CR or LF between messages. */
    method SkipByte(ghost s0: Parser, ghost c0: nat, data: string, off: nat)
      requires phase.Start? && !paused && off < |data| && Running(s0, c0, data, off) &&
        (data[off] == '\r' || data[off] == '\n')
      modifies this`phase, this`error, this`emptyLines, this`pending
      ensures Running(s0, c0, data, off + 1) && (phase.Start? || phase.Failed?)
    {
      hide Step, RunsTo, Sound, WellFormed, Calls, Pauses;
      ghost var p, c := Snap(), calls;
      SkipStep(env, p, data[off..]);
      pending := pending + 1;
      if data[off] == '\n' && env.maxEmptyLines > 0 {
        CountEmptyLine();
      }
      StepRuns(env, pause, s0, c0, data, off, p, c, Snap(), 1);
    }

    method CountEmptyLine()
      requires phase.Start? && env.maxEmptyLines > 0
      modifies this`phase, this`error, this`emptyLines
      ensures Snap() == Skipped(env, old(Snap()), '\n') && (phase.Start? || phase.Failed?)
    {
      emptyLines := emptyLines + 1;
      if emptyLines >= env.maxEmptyLines {
        FailWith(TooBig);
      }
    }

    method SkipEmptyLines(ghost s0: Parser, ghost c0: nat, data: string, from: nat) returns (off: nat)
      requires phase.Start? && !paused && from <= |data| && Running(s0, c0, data, from)
      modifies this`phase, this`error, this`emptyLines, this`pending
      ensures from <= off <= |data| && Running(s0, c0, data, off)
      ensures phase.Failed? || (phase.Start? && (off < |data| ==> data[off] != '\r' && data[off] != '\n'))
    {
      hide RunsTo, Sound, WellFormed, Snap;
      off := from;
      while off < |data| && (data[off] == '\r' || data[off] == '\n')
        invariant from <= off <= |data| && phase.Start? && Running(s0, c0, data, off)
      {
        SkipByte(s0, c0, data, off);
        off := off + 1;
        if phase.Failed? {
          return;
        }
      }
    }

    /** The body case of htparser_run; `stuck` when more data is needed. */
    method RunBody(ghost s0: Parser, ghost c0: nat, data: string, from: nat) returns (off: nat, stuck: bool)
      requires phase.Body? && !paused && from < |data| && Running(s0, c0, data, from)
      modifies this`trace, this`calls, this`paused, this`flags, this`phase, this`error, this`contentLen,
               this`origContentLen, this`chunk, this`headerCount, this`pending
      ensures from <= off <= |data| && Running(s0, c0, data, off)
      ensures stuck ==> !paused && Step(env, Head(env), Snap(), data[off..]).Stuck?
      ensures !stuck ==> off > from || phase.Failed?
    {
      hide Step, RunsTo, Sound, BodyStep, Calls;
      ghost var p, c := Snap(), calls;
      BodyIsStep(env, p, data[from..]);
      var n;
      stuck, n := ParseBody(data[from..]);
      pending := pending + n;
      off := from + n;
      if !stuck {
        CallsIgnoreTotal(p, Snap().(total := p.total), p.total + n);
        StepRuns(env, pause, s0, c0, data, from, p, c, Snap(), n);
      }
    }

    method TellComplete()
      requires phase.Complete?
      modifies this`trace, this`calls, this`paused, this`flags, this`phase, this`error
      ensures var p := old(Snap()); Snap() == Call(env, p.(phase := Start, flags := p.flags - {Skipping}), MsgComplete)
      ensures Counted(old(trace), old(calls), old(paused))
    {
      hide Call;
      phase := Start;
      flags := flags - {Skipping};
      var _ := Tell(MsgComplete);
    }

    /** The complete case of htparser_run: the next message begins on a later call. */
    method CompleteMessage(ghost s0: Parser, ghost c0: nat, ghost data: string, ghost off: nat)
      requires phase.Complete? && !paused && Running(s0, c0, data, off)
      modifies this`trace, this`calls, this`paused, this`flags, this`phase, this`error
      ensures Run(ParserMachine(env, Head(env)), pause, s0, c0, data) == RunResult(Snap(), off, calls, paused)
    {
      hide Step, RunsTo, Sound, Run, Calls, Pauses, WellFormed, Snap;
      ghost var p, c := Snap(), calls;
      SnapShows();
      TellComplete();
      SnapShows();
      CompleteStep(env, p, data[off..]);
      RunsToEnd(ParserMachine(env, Head(env)), pause, s0, c0, data, off, p, c);
    }

    /** htparser_run. */
    method RunOn(data: string) returns (n: nat)
      requires WellFormed(Snap()) && pending == 0
      modifies this
      ensures pending == 0 && bytesRead == n <= |data| && total == old(total) + n
      ensures old(paused) ==> n == 0 && paused && Snap() == old(Snap()) && calls == old(calls)
      ensures !old(paused) ==>
        var m := ParserMachine(env, Head(env));
        Sound(m) && Run(m, pause, old(Snap()), old(calls), data) == RunResult(Snap(), n, calls, paused)
    {
      hide Sound, Run, WellFormed, Step;
      bytesRead := 0;
      n := 0;
      if !paused {
        n := Loop(data);
      }
      bytesRead := n;
      AddTotal(n);
    }

    /** The bytes of a run join the total. */
    method AddTotal(n: nat)
      requires pending == n
      modifies this`total, this`pending
      ensures pending == 0 && total == old(total) + n && Snap() == old(Snap())
    {
      total := total + n;
      pending := 0;
    }

    /** The loop of htparser_run. */
    method Loop(data: string) returns (off: nat)
      requires WellFormed(Snap()) && pending == 0 && !paused
      modifies this
      ensures pending == off && total == old(total)
      ensures var m := ParserMachine(env, Head(env));
        Sound(m) && Run(m, pause, old(Snap()), old(calls), data) == RunResult(Snap(), off, calls, paused)
    {
      hide Step, RunsTo, Sound, Run, WellFormed, TakeLine, Head, ParserMachine;
      ghost var m, s0, c0 := ParserMachine(env, Head(env)), Snap(), calls;
      Starts(env, pause, s0, c0, data);
      off := 0;
      while !phase.Failed? && !paused
        invariant off <= |data| && Running(s0, c0, data, off) && total == old(total)
        decreases |data| - off, Rank(Snap())
      {
        ghost var before := off;
        if phase.Start? {
          off := BeginMessage(s0, c0, data, off);
          if phase.Start? {
            Ends(env, pause, s0, c0, data, off, Snap(), calls);
            return;
          }
        } else if phase.Complete? {
          CompleteMessage(s0, c0, data, off);
          return;
        } else if phase.Body? {
          if off == |data| {
            Ends(env, pause, s0, c0, data, off, Snap(), calls);
            return;
          }
          var stuck;
          off, stuck := RunBody(s0, c0, data, off);
          if stuck {
            Ends(env, pause, s0, c0, data, off, Snap(), calls);
            return;
          }
        } else {
          var k := ParseHead(s0, c0, data, off, data[off..]);
          assert data[off..][k..] == data[off + k..];
          off := off + k;
          if InHead(phase) && !paused {
            Ends(env, pause, s0, c0, data, off, Snap(), calls);
            return;
          }
        }
      }
      Over(env, pause, s0, c0, data, off, Snap(), calls, paused);
    }

    /** htparser_resume. */
    method Resume()
      modifies this`paused
      ensures !paused
    {
      paused := false;
    }

    /** htparser_set_skip_body, from outside a hook. */
    method SetSkipBody()
      modifies this`flags
      ensures Snap() == old(Snap()).(flags := old(flags) + {Skipping})
    {
      flags := flags + {Skipping};
    }

    /** htparser_run_eof: the end of the stream ends a read-until-close body, and only that. */
    method RunEof()
      modifies this`trace, this`calls, this`paused, this`flags, this`phase, this`error
      ensures Snap() == AtEof(env, old(Snap()))
    {
      hide Call;
      if phase.Body? && body.Identity? {
        phase := Start;
        var _ := Tell(MsgComplete);
      }
    }

    /** htparser_should_keep_alive. */
    method KeepsAlive() returns (keep: bool)
      ensures keep <==> ShouldKeepAlive(Snap())
    {
      if Close in flags {
        return false;
      }
      keep := major * 10 + minor >= 11 || KeepAlive in flags;
    }

    /** A caller: run, resume, and run again on what is left, until a run does nothing. */
    method Present(data: string) returns (rest: string)
      requires WellFormed(Snap()) && pending == 0 && !paused
      modifies this
      ensures WellFormed(Snap()) && pending == 0 && !paused
      ensures var m := ParserMachine(env, Head(env));
        Sound(m) && Drive(m, pause, old(Snap()), old(calls), data) == Driven(Snap(), rest, calls)
    {
      hide Step, Sound, Run, WellFormed, Drive, Rank;
      rest := data;
      ghost var s0, c0 := Snap(), calls;
      Starts(env, pause, s0, c0, data);
      var going := true;
      while going
        invariant WellFormed(Snap()) && pending == 0 && !paused
        invariant going ==> Driving(env, pause, s0, c0, data, Snap(), calls, rest)
        invariant !going ==> Drive(ParserMachine(env, Head(env)), pause, s0, c0, data) == Driven(Snap(), rest, calls)
        decreases |rest|, Rank(Snap()), going
      {
        ghost var s1, c1 := Snap(), calls;
        var before := phase;
        var n := RunOn(rest);
        Resume();
        DriveStep(env, pause, s0, c0, data, s1, c1, rest);
        going := n > 0 || phase != before;
        rest := rest[n..];
      }
    }

    /** A caller whose stream arrives in pieces: a tail that could not be used comes again before the next piece. */
    method PresentAll(pieces: seq<string>) returns (rest: string)
      requires WellFormed(Snap()) && pending == 0 && !paused
      modifies this
      ensures WellFormed(Snap()) && pending == 0 && !paused
      ensures var m := ParserMachine(env, Head(env));
        Sound(m) && Feed(m, pause, Driven(old(Snap()), "", old(calls)), pieces) == Driven(Snap(), rest, calls)
      ensures old(Snap()) == FRESH && BodyHooksGo(env) && LinesFit(env.maxLine, Concat(pieces)) ==>
        Exhaust(ParserMachine(env, Head(env)), FRESH, Concat(pieces)) == Outcome(Snap(), rest)
    {
      hide Step, Sound, WellFormed, Drive, Snap, Exhaust, LinesFit, BodyHooksGo, Concat;
      rest := "";
      ghost var d0 := Driven(Snap(), "", calls);
      Starts(env, pause, Snap(), calls, "");
      for i := 0 to |pieces|
        invariant WellFormed(Snap()) && pending == 0 && !paused && Sound(ParserMachine(env, Head(env))) &&
          WellFormed(d0.s)
        invariant Feed(ParserMachine(env, Head(env)), pause, Driven(Snap(), rest, calls), pieces[i..])
               == Feed(ParserMachine(env, Head(env)), pause, d0, pieces)
      {
        assert pieces[i..][0] == pieces[i] && pieces[i..][1..] == pieces[i + 1..];
        rest := Present(rest + pieces[i]);
      }
      if d0.s == FRESH && BodyHooksGo(env) && LinesFit(env.maxLine, Concat(pieces)) {
        PiecesDoNotShow(env, pause, d0.calls, pieces);
      }
    }
  }

  /** One step of a run, in the terms of the class. */
  lemma {:induction false} StepRuns(env: Env, pause: nat -> bool, s0: Parser, c0: nat, data: string, n: nat,
                                    p: Parser, c: nat, p': Parser, k: nat)
    requires var m := ParserMachine(env, Head(env));
      Sound(m) && WellFormed(s0) && RunsTo(m, pause, s0, c0, data, n, p, c, false)
    requires n <= |data| && Step(env, Head(env), p, data[n..]) == Did(p', k) && !p.phase.Complete?
    ensures WellFormed(p') && (Calls(p, p') == 0 ==> !Pauses(pause, c, c))
    ensures var c' := c + Calls(p, p');
      RunsTo(ParserMachine(env, Head(env)), pause, s0, c0, data, n + k, p', c', Pauses(pause, c, c'))
  {
    hide Step, Sound, Run, WellFormed, Calls;
    RunsToStep(ParserMachine(env, Head(env)), pause, s0, c0, data, n, p, c, p', k);
  }

  lemma {:induction false} BodyIsStep(env: Env, p: Parser, data: string)
    requires p.phase.Body?
    ensures Step(env, Head(env), p, data) == match BodyStep(env, p, data)
      case Stuck => Stuck
      case Did(p', n) => Did(p'.(total := p.total + n), n)
  {
  }

  lemma {:induction false} CallsIgnoreTotal(p: Parser, p': Parser, t: nat)
    ensures Calls(p, p'.(total := t)) == Calls(p, p')
  {
  }

  lemma {:induction false} CompleteStep(env: Env, p: Parser, data: string)
    requires p.phase.Complete?
    ensures var p' := Call(env, p.(phase := Start, flags := p.flags - {Skipping}), MsgComplete);
      Step(env, Head(env), p, data) == Did(p', 0) && Calls(p, p') == 1 && |p'.trace| == |p.trace| + 1
  {
  }

  lemma {:induction false} Starts(env: Env, pause: nat -> bool, s0: Parser, c0: nat, data: string)
    requires WellFormed(s0)
    ensures var m := ParserMachine(env, Head(env)); Sound(m) && RunsTo(m, pause, s0, c0, data, 0, s0, c0, false)
  {
    hide Sound, RunsTo, WellFormed, Step;
    HeadIsOk(env);
    MachineSound(env, Head(env));
    RunsToStart(ParserMachine(env, Head(env)), pause, s0, c0, data);
  }

  /** A run with nothing to do is over. */
  lemma {:induction false} Ends(env: Env, pause: nat -> bool, s0: Parser, c0: nat, data: string, n: nat, p: Parser,
      c: nat)
    requires var m := ParserMachine(env, Head(env));
      Sound(m) && WellFormed(s0) && RunsTo(m, pause, s0, c0, data, n, p, c, false)
    requires n <= |data| && Idle(env, p, data[n..])
    ensures Run(ParserMachine(env, Head(env)), pause, s0, c0, data) == RunResult(p, n, c, false)
  {
    hide Sound, RunsTo, WellFormed, TakeLine;
    RunsToEnd(ParserMachine(env, Head(env)), pause, s0, c0, data, n, p, c);
  }

  /** Nothing can be done without more bytes. */
  predicate Idle(env: Env, p: Parser, data: string) {
    || p.phase.Failed?
    || (data == [] && (p.phase.Start? || p.phase.Body?))
    || (InHead(p.phase) && TakeLine(env.maxLine, data).NoLine?)
    || Step(env, Head(env), p, data).Stuck?
  }

  /** Out of the loop: the run was paused, or the parser failed. */
  lemma {:induction false} Over(env: Env, pause: nat -> bool, s0: Parser, c0: nat, data: string, n: nat, p: Parser,
      c: nat, paused: bool)
    requires var m := ParserMachine(env, Head(env));
      Sound(m) && WellFormed(s0) && RunsTo(m, pause, s0, c0, data, n, p, c, paused)
    requires n <= |data| && (paused || p.phase.Failed?)
    ensures Run(ParserMachine(env, Head(env)), pause, s0, c0, data) == RunResult(p, n, c, paused)
  {
    hide Sound, WellFormed;
    if !paused {
      Ends(env, pause, s0, c0, data, n, p, c);
    }
  }

  lemma {:induction false} PiecesDoNotShow(env: Env, pause: nat -> bool, calls: nat, pieces: seq<string>)
    requires BodyHooksGo(env) && LinesFit(env.maxLine, Concat(pieces))
    ensures var m := ParserMachine(env, Head(env));
      && Sound(m) && WellFormed(FRESH)
      && var d := Feed(m, pause, Driven(FRESH, "", calls), pieces);
         Exhaust(m, FRESH, Concat(pieces)) == Outcome(d.s, d.rest)
  {
    hide Step, Sound, Feed, Exhaust, LinesFit, Concat;
    FittingStreamsSplit(env, Concat(pieces));
  }

  /** Having run some, the caller has the rest to drive. */
  ghost predicate Driving(env: Env, pause: nat -> bool, s0: Parser, c0: nat, data: string, s1: Parser, c1: nat,
      rest: string) {
    var m := ParserMachine(env, Head(env));
    && Sound(m) && WellFormed(s0) && WellFormed(s1)
    && Drive(m, pause, s0, c0, data) == Drive(m, pause, s1, c1, rest)
  }

  /** A run that uses no bytes and stays in its phase did nothing; any other leaves less to do. */
  lemma {:induction false} DriveStep(env: Env, pause: nat -> bool, s0: Parser, c0: nat, data: string, s1: Parser,
      c1: nat, rest: string)
    requires Driving(env, pause, s0, c0, data, s1, c1, rest)
    ensures var m := ParserMachine(env, Head(env));
      var r := Run(m, pause, s1, c1, rest);
      && r.n <= |rest| && WellFormed(r.s)
      && (r.n > 0 || r.s.phase != s1.phase ==>
        Driving(env, pause, s0, c0, data, r.s, r.calls, rest[r.n..]) && (r.n == 0 ==> Rank(r.s) < Rank(s1)))
      && (r.n == 0 && r.s.phase == s1.phase ==>
        r.s == s1 && r.calls == c1 && Drive(m, pause, s0, c0, data) == Driven(s1, rest, c1))
  {
    hide Sound, WellFormed, Step;
    var m := ParserMachine(env, Head(env));
    var r := Run(m, pause, s1, c1, rest);
    assert m.rank(r.s) == Rank(r.s) && m.rank(s1) == Rank(s1) && m.ok(r.s) == WellFormed(r.s);
  }

  lemma {:induction false} SkipStep(env: Env, p: Parser, data: string)
    requires p.phase.Start? && data != [] && (data[0] == '\r' || data[0] == '\n')
    ensures Step(env, Head(env), p, data) == Did(Skipped(env, p, data[0]).(total := p.total + 1), 1)
    ensures Calls(p, Skipped(env, p, data[0]).(total := p.total + 1)) == 0
  {
  }

  lemma {:induction false} DigitsAfterVersion(line: string)
    requires |line| >= 12
    ensures Digits(line[9..12]) <==> Digit(line[9]) && Digit(line[10]) && Digit(line[11])
    ensures Digits(line[9..12]) ==>
      Decimal(line[9..12]) == DigitValue(line[9]) * 100 + DigitValue(line[10]) * 10 + DigitValue(line[11])
  {
    var s := line[9..12];
    assert s[0] == line[9] && s[1] == line[10] && s[2] == line[11];
    if Digits(s) {
      ThreeDigits(s);
    }
  }

  lemma {:induction false} ThreeDigits(s: string)
    requires |s| == 3 && Digits(s)
    ensures Decimal(s) == DigitValue(s[0]) * 100 + DigitValue(s[1]) * 10 + DigitValue(s[2])
  {
    assert s[..2][..1] == s[..1] && s[..1][..0] == [];
    assert Decimal(s[..1]) == DigitValue(s[0]);
    assert Decimal(s[..2]) == Decimal(s[..2][..1]) * 10 + DigitValue(s[1]);
  }
}
