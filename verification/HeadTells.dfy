/**
 What the hooks are told of a head: the texts of its lines, split as the grammar of a field says, each under
 its own hook and in the order of the lines; and what the head says about keeping the connection.
 */
module HeadTells {
  import opened Prelude
  import opened Text
  import opened ParserSpec
  import opened StartLines
  import opened ParserFraming
  import G = ParserGrammar

  // ---------------------------------------------------------------------------------------
  // Field lines
  // ---------------------------------------------------------------------------------------

  predicate Blanks(s: string) {
    forall i :: 0 <= i < |s| ==> Blank(s[i])
  }

  predicate Trimmed(s: string) {
    s != "" ==> !Blank(s[0]) && !Blank(s[|s| - 1])
  }

  /** A field line: a name, a colon, and a value with blanks around it. */
  ghost predicate FieldWords(line: string, name: string, value: string) {
    && name != "" && ':' !in name && Trimmed(name) && Trimmed(value)
    && exists a, b :: Blanks(a) && Blanks(b) && line == name + ":" + (a + value + b)
  }

  lemma {:induction false} LeftTrimmed(s: string) returns (a: string)
    ensures Blanks(a) && s == a + TrimLeft(s) && (TrimLeft(s) != "" ==> !Blank(TrimLeft(s)[0]))
    decreases |s|
  {
    if s != "" && Blank(s[0]) {
      assert TrimLeft(s) == TrimLeft(s[1..]);
      hide TrimLeft;
      var b := LeftTrimmed(s[1..]);
      a := [s[0]] + b;
      Three([s[0]], b, TrimLeft(s));
    } else {
      a := "";
    }
  }

  lemma {:induction false} Three(a: string, b: string, c: string)
    ensures a + (b + c) == a + b + c
  {
  }

  lemma {:induction false} RightTrimmed(s: string) returns (b: string)
    ensures Blanks(b) && s == TrimRight(s) + b && (TrimRight(s) != "" ==> !Blank(TrimRight(s)[|TrimRight(s)| - 1]))
    ensures TrimRight(s) != "" ==> TrimRight(s)[0] == s[0]
    decreases |s|
  {
    if s != "" && Blank(s[|s| - 1]) {
      var init, c := s[..|s| - 1], [s[|s| - 1]];
      assert TrimRight(s) == TrimRight(init);
      hide TrimRight;
      var a := RightTrimmed(init);
      b := a + c;
      assert s == init + c;
      Three(TrimRight(s), a, c);
    } else {
      b := "";
    }
  }

  lemma {:induction false} TrimmedLeft(a: string, s: string)
    requires Blanks(a) && (s != "" ==> !Blank(s[0]))
    ensures TrimLeft(a + s) == s
    decreases |a|
  {
    if a == "" {
      assert a + s == s;
    } else {
      assert (a + s)[1..] == a[1..] + s;
      TrimmedLeft(a[1..], s);
    }
  }

  lemma {:induction false} TrimmedRight(s: string, b: string)
    requires Blanks(b) && (s != "" ==> !Blank(s[|s| - 1]))
    ensures TrimRight(s + b) == s
    decreases |b|
  {
    if b == "" {
      assert s + b == s;
    } else {
      var n := |b| - 1;
      assert (s + b)[..|s + b| - 1] == s + b[..n];
      TrimmedRight(s, b[..n]);
    }
  }

  /** Blanks around a value are dropped, and nothing else. */
  lemma {:induction false} ValueRead(a: string, value: string, b: string)
    requires Blanks(a) && Blanks(b) && Trimmed(value)
    ensures TrimRight(TrimLeft(a + value + b)) == value
  {
    if value == "" {
      assert a + value + b == (a + b) + "";
      TrimmedLeft(a + b, "");
    } else {
      assert a + value + b == a + (value + b);
      TrimmedLeft(a, value + b);
      TrimmedRight(value, b);
    }
  }

  /** A field line is split into its name and its value. */
  lemma {:induction false} FieldRead(line: string, name: string, value: string)
    requires FieldWords(line, name, value)
    ensures SplitField(line) == Some((name, value))
  {
    var a, b :| Blanks(a) && Blanks(b) && line == name + ":" + (a + value + b);
    var n := |name|;
    assert forall i :: 0 <= i < n ==> line[i] == name[i] && name[i] in name;
    assert line[n] == ':';
    IndexOfUnique(line, ':', n);
    assert line[..n] == name && line[n + 1..] == a + value + b;
    ValueRead(a, value, b);
  }

  /** And only a field line is. */
  lemma {:induction false} FieldIs(line: string)
    requires SplitField(line).Some?
    ensures var (name, value) := SplitField(line).value; FieldWords(line, name, value)
  {
    var (name, value) := SplitField(line).value;
    var rest := ColonSplits(line);
    hide SplitField, TrimLeft, TrimRight;
    var a, b := ValueIs(rest);
    assert line == name + ":" + (a + value + b);
  }

  /** A value has no blanks at its ends, and only blanks around it. */
  lemma {:induction false} ValueIs(s: string) returns (a: string, b: string)
    ensures var v := TrimRight(TrimLeft(s)); Blanks(a) && Blanks(b) && s == a + v + b && Trimmed(v)
  {
    hide TrimLeft, TrimRight;
    a := LeftTrimmed(s);
    b := RightTrimmed(TrimLeft(s));
    Three(a, TrimRight(TrimLeft(s)), b);
  }

  lemma {:induction false} ColonSplits(line: string) returns (rest: string)
    requires SplitField(line).Some?
    ensures var (name, value) := SplitField(line).value;
      && value == TrimRight(TrimLeft(rest)) && line == name + ":" + rest
      && name != "" && ':' !in name && Trimmed(name)
  {
    hide TrimLeft, TrimRight;
    var n := IndexOf(line, ':');
    rest := line[n + 1..];
    assert forall i :: 0 <= i < n ==> line[..n][i] == line[i];
  }

  // ---------------------------------------------------------------------------------------
  // What a field tells
  // ---------------------------------------------------------------------------------------

  predicate HostField(env: Env, f: Field) {
    |f.0| == 4 && env.equalsI(f.0, "Host")
  }

  /** The hooks of one field; `first` is whether it could be the first Host field of a head. */
  function FieldTold(env: Env, f: Field, first: bool): seq<Event> {
    if first && HostField(env, f) then [HdrKey(f.0), Hostname(f.1), HdrVal(f.1)] else [HdrKey(f.0), HdrVal(f.1)]
  }

  lemma {:induction false} NoteFieldTold(env: Env, p: Parser, f: Field)
    requires HooksGo(env) && !p.phase.Failed? && !NoteField(env, p, f.0, f.1).phase.Failed?
    ensures var q := NoteField(env, p, f.0, f.1);
      && q.trace == p.trace + (if HaveHost !in p.flags && HostField(env, f) then [Hostname(f.1)] else [])
      && (HaveHost in q.flags <==> HaveHost in p.flags || HostField(env, f))
  {
    hide Call, NoteTokens, NoteCodings, NoteLengths, Multipart, TokensOf, CodingsOf, HooksGo;
    assert p.trace + [] == p.trace;
    GoingCall(env, p.(flags := p.flags + {HaveHost}), Hostname(f.1));
    G.NoteTokensFrame(p.flags, TokensOf(env, f.1));
    G.NoteCodingsFrame(p.flags + {HaveCoding}, CodingsOf(env, f.1));
    G.NoteLengthsFrame(p, env.elements(f.1));
  }

  /** An accepted field line tells its name and its value, and the first Host of a head its host; trailers do not. */
  lemma {:induction false} LineTold(env: Env, p: Parser, line: string, trailer: bool)
    requires HooksGo(env) && !p.phase.Failed? && !HeaderLine(env, p, line, trailer).phase.Failed?
    ensures var q := HeaderLine(env, p, line, trailer);
      exists name, value :: FieldWords(line, name, value) && SplitField(line) == Some((name, value)) &&
        q.trace == p.trace + FieldTold(env, (name, value), !trailer && HaveHost !in p.flags) &&
        (HaveHost in q.flags <==> HaveHost in p.flags || (!trailer && HostField(env, (name, value))))
  {
    var (name, value) := SplitField(line).value;
    FieldIs(line);
    hide SplitField, FieldWords, NoteField, Call, HooksGo, HostField;
    GoingCall(env, p, HdrKey(name));
    var p1 := p.(trace := p.trace + [HdrKey(name)]);
    var p2 := if trailer then p1 else NoteField(env, p1, name, value);
    if !trailer {
      NoteFieldTold(env, p1, (name, value));
    }
    GoingCall(env, p2, HdrVal(value));
    var q := HeaderLine(env, p, line, trailer);
    assert q.trace == p.trace + FieldTold(env, (name, value), !trailer && HaveHost !in p.flags);
    assert FieldWords(line, name, value);
  }

  // ---------------------------------------------------------------------------------------
  // Whole heads
  // ---------------------------------------------------------------------------------------

  predicate HasHost(env: Env, fields: seq<Field>) {
    exists i :: 0 <= i < |fields| && HostField(env, fields[i])
  }

  /** The hooks of all fields of a head, line by line. */
  function FieldsTold(env: Env, fields: seq<Field>): seq<Event> {
    if fields == [] then []
    else
      var init, f := fields[..|fields| - 1], fields[|fields| - 1];
      FieldsTold(env, init) + FieldTold(env, f, !HasHost(env, init))
  }

  lemma {:induction false} HasHostSnoc(env: Env, fields: seq<Field>, f: Field)
    ensures HasHost(env, fields + [f]) <==> HasHost(env, fields) || HostField(env, f)
  {
    hide HostField;
    var all := fields + [f];
    assert all[|fields|] == f && forall i :: 0 <= i < |fields| ==> all[i] == fields[i];
  }

  lemma {:induction false} FieldsToldSnoc(env: Env, fields: seq<Field>, f: Field)
    ensures FieldsTold(env, fields + [f]) == FieldsTold(env, fields) + FieldTold(env, f, !HasHost(env, fields))
  {
    assert (fields + [f])[..|fields|] == fields;
  }

  lemma {:induction false} HeadLineTold(env: Env, p: Parser, line: string)
    requires HooksGo(env) && p.phase.Headers? && line != "" && !HeadStep(env, p, line).phase.Failed?
    ensures var q := HeadStep(env, p, line);
      && SplitField(line).Some? && q.phase.Headers?
      && q.trace == p.trace + FieldTold(env, SplitField(line).value, HaveHost !in p.flags)
      && (HaveHost in q.flags <==> HaveHost in p.flags || HostField(env, SplitField(line).value))
  {
    hide HeaderLine, SplitField, FieldWords, HostField, FieldTold, HooksGo;
    var p1 := p.(headerCount := p.headerCount + 1);
    HeaderLinePhase(env, p1, line, false);
    LineTold(env, p1, line, false);
  }

  lemma {:induction false} FieldLinesTold(env: Env, p: Parser, lines: seq<string>)
    requires HooksGo(env) && p.phase.Headers? && HaveHost !in p.flags
    requires (forall i :: 0 <= i < |lines| ==> lines[i] != "") && !TakeHead(Head(env), p, lines).phase.Failed?
    ensures var q := TakeHead(Head(env), p, lines);
      && AllFields(lines) && q.phase.Headers?
      && q.trace == p.trace + FieldsTold(env, FieldsOf(lines))
      && (HaveHost in q.flags <==> HasHost(env, FieldsOf(lines)))
    decreases |lines|
  {
    hide HeadStep, SplitField, HooksGo, HasHost, FieldTold, HostField;
    if lines == [] {
      assert FieldsOf(lines) == [] && p.trace + [] == p.trace;
      NoHost(env);
    } else {
      var init, line := lines[..|lines| - 1], lines[|lines| - 1];
      FieldLinesTold(env, p, init);
      HeadLineTold(env, TakeHead(Head(env), p, init), line);
      assert lines == init + [line];
      SplitsSnoc(init, line);
      HasHostSnoc(env, FieldsOf(init), SplitField(line).value);
      FieldsToldSnoc(env, FieldsOf(init), SplitField(line).value);
      hide FieldsTold, FieldsOf, AllFields;
      Regroup(p.trace, FieldsTold(env, FieldsOf(init)),
              FieldTold(env, SplitField(line).value, !HasHost(env, FieldsOf(init))));
    }
  }

  lemma {:induction false} NoHost(env: Env)
    ensures !HasHost(env, [])
  {
  }

  lemma {:induction false} Regroup(a: seq<Event>, b: seq<Event>, c: seq<Event>)
    ensures (a + b) + c == a + (b + c)
  {
  }

  /** What a start line tells: a request line its method and target, a status line nothing. */
  ghost predicate StartTold(env: Env, line: string, told: seq<Event>) {
    if env.kind.Response? then told == []
    else exists m, t, major, minor, target ::
      RequestIs(env, line, m, t, major, minor) && TargetTold(env, m, t, target) && told == [MethodIs(m)] + target
  }

  lemma {:induction false} StartLineTold(env: Env, p: Parser, line: string) returns (told: seq<Event>)
    requires HooksGo(env) && p.phase.HeadLine? && !HeadStep(env, p, line).phase.Failed?
    ensures StartTold(env, line, told)
    ensures var q := HeadStep(env, p, line);
      q.phase.Headers? && q.trace == p.trace + told + [HdrsBegin] && q.flags == p.flags
  {
    hide Call, StatusLine, RequestLine, RequestIs, TargetTold, HooksGo, SchemeTold;
    var p1 := if env.kind.Request? then RequestLine(env, p, line) else StatusLine(p, line);
    if env.kind.Request? {
      var m, t := RequestLineSays(env, p, line);
      RequestLineRead(env, p, line, m, t, p1.major, p1.minor);
      var target :| TargetTold(env, m, t, target) && SchemeTold(env, m, t, p1.scheme) &&
        p1 == p.(method_ := m, major := p1.major, minor := p1.minor, scheme := p1.scheme,
                 trace := p.trace + [MethodIs(m)] + target);
      told := [MethodIs(m)] + target;
      Regroup(p.trace, [MethodIs(m)], target);
    } else {
      told := [];
      StatusLineIs(p, line);
      StatusLineRead(p, line, p1.major, p1.minor, p1.status);
      assert p.trace + told == p.trace;
    }
    GoingCall(env, p1.(phase := Headers), HdrsBegin);
  }

  /**
   Every text of an accepted head is told, under its hook and in order: the start line's, then each field's name
   and value, with the host after the name of the first Host field, and nothing else.
   */
  lemma {:induction false} WholeHeadTold(env: Env, p: Parser, start: string, lines: seq<string>)
    returns (told: seq<Event>)
    requires HooksGo(env) && (forall i :: 0 <= i < |lines| ==> lines[i] != "")
    requires !WholeHead(env, p, start, lines).phase.Failed?
    ensures AllFields(lines) && StartTold(env, start, told)
    ensures WholeHead(env, p, start, lines).trace ==
      p.trace + [MsgBegin] + told + [HdrsBegin] + FieldsTold(env, FieldsOf(lines))
  {
    var p1 := Begins(env, p);
    GoingCall(env, Reset(p).(phase := HeadLine), MsgBegin);
    hide HeadStep, StartTold, FieldsTold, Call;
    told := StartLineTold(env, p1, start);
    FieldLinesTold(env, HeadStep(env, p1, start), lines);
  }

  // ---------------------------------------------------------------------------------------
  // Keeping the connection
  // ---------------------------------------------------------------------------------------

  /**
   After any accepted head the connection is kept exactly if no Connection field of it lists close, and the start
   line's version is 1.1 or later or some Connection field lists keep-alive.
   */
  lemma {:induction false} HeadKeepsAlive(env: Env, p: Parser, start: string, lines: seq<string>)
    requires (forall i :: 0 <= i < |lines| ==> lines[i] != "") && !WholeHead(env, p, start, lines).phase.Failed?
    ensures AllFields(lines)
    ensures
      var q, tokens := WholeHead(env, p, start, lines), FactsOf(env, FieldsOf(lines)).tokens;
      && StartsWith(env, start, q)
      && (ShouldKeepAlive(q) <==> CloseToken !in tokens && (q.major * 10 + q.minor >= 11 || KeepAliveToken in tokens))
  {
    hide WholeHead, FactsOf, FieldsOf, Framed, RuleFor, HeadStep, StartsWith, CodingsSay, LengthsSay, AllAre;
    HeadIsFramedByRule(env, p, start, lines);
  }

  // ---------------------------------------------------------------------------------------
  // The words the parser knows
  // ---------------------------------------------------------------------------------------

  function Lower(c: char): char {
    if 'A' <= c <= 'Z' then (c as int + 32) as char else c
  }

  function Lowered(s: string): string {
    seq(|s|, i requires 0 <= i < |s| => Lower(s[i]))
  }

  /** The string library compares ASCII letters without regard to case, and everything else as it is. */
  ghost predicate IgnoresCase(env: Env) {
    forall a, b :: env.equalsI(a, b) <==> Lowered(a) == Lowered(b)
  }

  /** Names of fields, codings and tokens are known by their letters, in either case. */
  lemma {:induction false} FieldNames(env: Env, f: Field)
    requires IgnoresCase(env)
    ensures HostField(env, f) <==> Lowered(f.0) == "host"
    ensures ConnectionField(env, f) <==> Lowered(f.0) == "connection"
    ensures TypeField(env, f) <==> Lowered(f.0) == "content-type"
    ensures LengthField(env, f) <==> Lowered(f.0) == "content-length"
    ensures CodingField(env, f) <==> Lowered(f.0) == "transfer-encoding"
  {
    assert Lowered("Host") == "host";
    assert Lowered("Connection") == "connection";
    assert Lowered("Content-Type") == "content-type";
    LongNames();
    hide Lowered;
    assert |Lowered(f.0)| == |f.0| by {
      SameLength(f.0);
    }
  }

  lemma {:induction false} LongNames()
    ensures Lowered("Content-Length") == "content-length" && Lowered("Transfer-Encoding") == "transfer-encoding"
  {
    assert Lowered("Content-Length") == "content-length";
    assert Lowered("Transfer-Encoding") == "transfer-encoding";
  }

  lemma {:induction false} SameLength(s: string)
    ensures |Lowered(s)| == |s|
  {
  }

  lemma {:induction false} WordsKnown(env: Env, w: string)
    requires IgnoresCase(env)
    ensures CodingOf(env, w) ==
      if Lowered(w) == "chunked" then ChunkedCoding
      else if Lowered(w) in {"gzip", "deflate", "compress", "x-gzip"} then KnownCoding else UnknownCoding
    ensures TokenOf(env, w) ==
      if Lowered(w) == "close" then CloseToken else if Lowered(w) == "keep-alive" then KeepAliveToken else OtherToken
    ensures Multipart(env, w) <==> |w| >= 9 && Lowered(w[..9]) == "multipart"
  {
    assert Lowered("chunked") == "chunked" && Lowered("gzip") == "gzip" && Lowered("deflate") == "deflate";
    assert Lowered("compress") == "compress" && Lowered("x-gzip") == "x-gzip";
    assert Lowered("close") == "close" && Lowered("keep-alive") == "keep-alive";
    assert Lowered("multipart") == "multipart";
  }
}
