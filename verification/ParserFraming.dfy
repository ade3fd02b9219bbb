/**
 Body framing (section 6.3 of RFC 9112, with the parser's own rule for length-less responses): what
 the flags gathered field by field say about the head as a whole, and what framing makes of it.
 */
module ParserFraming {
  import opened Prelude
  import opened Text
  import opened ParserSpec
  import opened StartLines

  type Field = (string, string)

  predicate CodingField(env: Env, f: Field) {
    |f.0| == 17 && env.equalsI(f.0, "Transfer-Encoding")
  }

  predicate LengthField(env: Env, f: Field) {
    |f.0| == 14 && env.equalsI(f.0, "Content-Length")
  }

  predicate ConnectionField(env: Env, f: Field) {
    |f.0| == 10 && env.equalsI(f.0, "Connection")
  }

  predicate TypeField(env: Env, f: Field) {
    |f.0| == 12 && env.equalsI(f.0, "Content-Type")
  }

  /**
   What all fields of a head say together: the elements of same-named fields joined in order, and whether the
   first Content-Type, if there is one, is a multipart one.
   */
  datatype Facts = Facts(
    hasCoding: bool, codings: seq<Coding>, lengths: seq<string>, tokens: seq<Token>, multipart: Option<bool>)

  const NO_FACTS: Facts := Facts(false, [], [], [], None)

  function AddFact(env: Env, a: Facts, f: Field): Facts {
    if CodingField(env, f) then a.(hasCoding := true, codings := a.codings + CodingsOf(env, f.1))
    else if LengthField(env, f) then a.(lengths := a.lengths + env.elements(f.1))
    else if ConnectionField(env, f) then a.(tokens := a.tokens + TokensOf(env, f.1))
    else if TypeField(env, f) && a.multipart.None? then a.(multipart := Some(Multipart(env, f.1)))
    else a
  }

  function FactsOf(env: Env, fields: seq<Field>): Facts {
    if fields == [] then NO_FACTS
    else AddFact(env, FactsOf(env, fields[..|fields| - 1]), fields[|fields| - 1])
  }

  // ---------------------------------------------------------------------------------------
  // What the flags say
  // ---------------------------------------------------------------------------------------

  /** chunked is named somewhere in the list. */
  predicate HasChunked(codings: seq<Coding>) {
    ChunkedCoding in codings
  }

  /** chunked is named before the end of the list: twice, or with something after it. */
  predicate ChunkedEarly(codings: seq<Coding>) {
    codings != [] && ChunkedCoding in codings[..|codings| - 1]
  }

  ghost predicate CodingsSay(f: Flags, codings: seq<Coding>) {
    && (ChunkedLast in f <==> HasChunked(codings))
    && (CodingBad in f <==> ChunkedEarly(codings))
    && (CodingUnknown in f <==> UnknownCoding in codings)
  }

  ghost predicate AllAre(lengths: seq<string>, n: nat) {
    forall i :: 0 <= i < |lengths| ==> ParseU64(lengths[i]) == Some(n)
  }

  ghost predicate LengthsSay(p: Parser, lengths: seq<string>) {
    (HaveLength in p.flags <==> lengths != []) && AllAre(lengths, p.origContentLen) &&
      (lengths == [] ==> p.origContentLen == 0)
  }

  /** The parser's flags and length are exactly what the fields taken so far say. */
  ghost predicate Reflects(p: Parser, a: Facts) {
    && (HaveCoding in p.flags <==> a.hasCoding)
    && CodingsSay(p.flags, a.codings)
    && LengthsSay(p, a.lengths)
    && TokensSay(p.flags, a.tokens)
    && (HaveType in p.flags <==> a.multipart.Some?)
    && (IsMultipart in p.flags <==> a.multipart == Some(true))
  }

  ghost predicate TokensSay(f: Flags, tokens: seq<Token>) {
    (KeepAlive in f <==> KeepAliveToken in tokens) && (Close in f <==> CloseToken in tokens)
  }

  ghost predicate SameBut(f: Flags, g: Flags, changed: Flags) {
    forall x :: x !in changed ==> (x in f <==> x in g)
  }

  lemma {:induction false} CodingSaid(f: Flags, codings: seq<Coding>, c: Coding)
    requires CodingsSay(f, codings)
    ensures CodingsSay(NoteCoding(f, c), codings + [c])
  {
    assert (codings + [c])[..|codings|] == codings;
    if codings != [] {
      assert codings == codings[..|codings| - 1] + [codings[|codings| - 1]];
    }
  }

  lemma {:induction false} CodingsSaid(f: Flags, codings: seq<Coding>, more: seq<Coding>)
    requires CodingsSay(f, codings)
    ensures CodingsSay(NoteCodings(f, more), codings + more)
    ensures SameBut(NoteCodings(f, more), f, {ChunkedLast, CodingBad, CodingUnknown})
    decreases |more|
  {
    if more == [] {
      assert codings + more == codings;
    } else {
      CodingSaid(f, codings, more[0]);
      CodingsSaid(NoteCoding(f, more[0]), codings + [more[0]], more[1..]);
      assert codings + more == codings + [more[0]] + more[1..];
    }
  }

  lemma {:induction false} TokensSaid(f: Flags, tokens: seq<Token>, more: seq<Token>)
    requires TokensSay(f, tokens)
    ensures TokensSay(NoteTokens(f, more), tokens + more)
    ensures SameBut(NoteTokens(f, more), f, {KeepAlive, Close})
    decreases |more|
  {
    if more == [] {
      assert tokens + more == tokens;
    } else {
      var all := tokens + [more[0]];
      assert tokens + more == all + more[1..];
      match more[0]
      case CloseToken => TokensSaid(f + {Close}, all, more[1..]);
      case KeepAliveToken => TokensSaid(f + {KeepAlive}, all, more[1..]);
      case OtherToken => TokensSaid(f, all, more[1..]);
    }
  }

  /** Lengths are taken when all are numbers and all agree; otherwise the message is refused. */
  lemma {:induction false} LengthsSaid(p: Parser, lengths: seq<string>, more: seq<string>)
    requires LengthsSay(p, lengths) && !p.phase.Failed?
    ensures var p' := NoteLengths(p, more);
      !p'.phase.Failed? ==>
        && LengthsSay(p', lengths + more)
        && p' == p.(origContentLen := p'.origContentLen, flags := p'.flags)
        && SameBut(p'.flags, p.flags, {HaveLength})
    ensures !NoteLengths(p, more).phase.Failed? <==> exists n: nat :: AllAre(lengths + more, n)
    decreases |more|
  {
    var all := lengths + more;
    if more == [] {
      assert all == lengths;
      assert AllAre(all, p.origContentLen);
    } else {
      assert all[|lengths|] == more[0];
      assert forall i :: 0 <= i < |lengths| ==> all[i] == lengths[i];
      var v := ParseU64(more[0]);
      if v.Some? && (lengths != [] ==> v.value == p.origContentLen) {
        var p1 := p.(origContentLen := v.value, flags := p.flags + {HaveLength});
        LengthsSaid(p1, lengths + [more[0]], more[1..]);
        assert lengths + [more[0]] + more[1..] == all;
      } else {
        forall n: nat ensures !AllAre(all, n) {
          assert ParseU64(all[|lengths|]) == v;
          if lengths != [] {
            assert ParseU64(all[0]) == Some(p.origContentLen);
          }
        }
      }
    }
  }

  lemma {:induction false} CallReflects(env: Env, p: Parser, e: Event, a: Facts)
    requires Reflects(p, a)
    ensures Reflects(Call(env, p, e), a)
  {
    match env.verdict(Append(p.trace, e))
    case Go =>
    case SkipBody =>
    case Fail =>
  }

  lemma {:induction false} HostReflects(env: Env, p: Parser, f: Field, a: Facts)
    requires Reflects(p, a) && |f.0| == 4
    ensures Reflects(NoteField(env, p, f.0, f.1), AddFact(env, a, f))
  {
    hide Call;
    CallReflects(env, p.(flags := p.flags + {HaveHost}), Hostname(f.1), a);
  }

  lemma {:induction false} ConnectionReflects(env: Env, p: Parser, f: Field, a: Facts)
    requires Reflects(p, a) && |f.0| == 10
    ensures Reflects(NoteField(env, p, f.0, f.1), AddFact(env, a, f))
  {
    hide NoteTokens, TokensOf, AllAre, HasChunked, ChunkedEarly;
    TokensSaid(p.flags, a.tokens, TokensOf(env, f.1));
  }

  lemma {:induction false} LengthReflects(env: Env, p: Parser, f: Field, a: Facts)
    requires Reflects(p, a) && !p.phase.Failed? && |f.0| == 14 && !NoteField(env, p, f.0, f.1).phase.Failed?
    ensures Reflects(NoteField(env, p, f.0, f.1), AddFact(env, a, f))
  {
    hide NoteLengths, AllAre, HasChunked, ChunkedEarly;
    LengthsSaid(p, a.lengths, env.elements(f.1));
  }

  lemma {:induction false} CodingReflects(env: Env, p: Parser, f: Field, a: Facts)
    requires Reflects(p, a) && |f.0| == 17
    ensures Reflects(NoteField(env, p, f.0, f.1), AddFact(env, a, f))
  {
    hide NoteCodings, CodingsOf, AllAre, HasChunked, ChunkedEarly;
    CodingsSaid(p.flags + {HaveCoding}, a.codings, CodingsOf(env, f.1));
  }

  lemma {:induction false} OtherReflects(env: Env, p: Parser, f: Field, a: Facts)
    requires Reflects(p, a) && |f.0| != 4 && |f.0| != 10 && |f.0| != 14 && |f.0| != 17
    ensures Reflects(NoteField(env, p, f.0, f.1), AddFact(env, a, f))
  {
    hide AllAre, HasChunked, ChunkedEarly, Multipart;
  }

  lemma {:induction false} NoteFieldReflects(env: Env, p: Parser, f: Field, a: Facts)
    requires Reflects(p, a) && !p.phase.Failed? && !NoteField(env, p, f.0, f.1).phase.Failed?
    ensures Reflects(NoteField(env, p, f.0, f.1), AddFact(env, a, f))
  {
    hide NoteField, Reflects, AddFact;
    if |f.0| == 4 {
      HostReflects(env, p, f, a);
    } else if |f.0| == 10 {
      ConnectionReflects(env, p, f, a);
    } else if |f.0| == 14 {
      LengthReflects(env, p, f, a);
    } else if |f.0| == 17 {
      CodingReflects(env, p, f, a);
    } else {
      OtherReflects(env, p, f, a);
    }
  }

  lemma {:induction false} HeaderLineReflects(env: Env, p: Parser, line: string, a: Facts)
    requires Reflects(p, a) && !p.phase.Failed? && !HeaderLine(env, p, line, false).phase.Failed?
    ensures SplitField(line).Some? && Reflects(HeaderLine(env, p, line, false), AddFact(env, a, SplitField(line).value))
  {
    var (name, value) := SplitField(line).value;
    var p1 := Call(env, p, HdrKey(name));
    CallReflects(env, p, HdrKey(name), a);
    NoteFieldReflects(env, p1, (name, value), a);
    CallReflects(env, NoteField(env, p1, name, value), HdrVal(value), AddFact(env, a, (name, value)));
  }

  // ---------------------------------------------------------------------------------------
  // Whole heads
  // ---------------------------------------------------------------------------------------

  /** The field lines of a head, taken one after the other. */
  function TakeHead(head: LineTaker, p: Parser, lines: seq<string>): Parser {
    if lines == [] then p
    else
      var q := TakeHead(head, p, lines[..|lines| - 1]);
      if q.phase.Failed? then q else head(q, lines[|lines| - 1])
  }

  predicate AllFields(lines: seq<string>) {
    forall i :: 0 <= i < |lines| ==> lines[i] != "" && SplitField(lines[i]).Some?
  }

  function FieldsOf(lines: seq<string>): seq<Field>
    requires AllFields(lines)
  {
    seq(|lines|, i requires 0 <= i < |lines| => SplitField(lines[i]).value)
  }

  /** What taking one field line of a head means. */
  ghost predicate TookField(env: Env, p: Parser, line: string, a: Facts, p': Parser) {
    && SplitField(line).Some? && Reflects(p', AddFact(env, a, SplitField(line).value))
    && p'.phase.Headers? && p'.headerCount == p.headerCount + 1
    && p'.status == p.status && p'.major == p.major && p'.minor == p.minor
  }

  ghost predicate TakesFields(env: Env, head: LineTaker) {
    forall p: Parser, line: string, a: Facts ::
      p.phase.Headers? && line != "" && Reflects(p, a) && !head(p, line).phase.Failed? ==>
      TookField(env, p, line, a, head(p, line))
  }

  lemma {:induction false} HeadTakesFields(env: Env)
    ensures TakesFields(env, Head(env))
  {
    forall p: Parser, line: string, a: Facts | p.phase.Headers? && line != "" && Reflects(p, a) &&
      !Head(env)(p, line).phase.Failed?
      ensures TookField(env, p, line, a, Head(env)(p, line))
    {
      HeadTakesField(env, p, line, a);
    }
  }

  lemma {:induction false} HeadTakesField(env: Env, p: Parser, line: string, a: Facts)
    requires p.phase.Headers? && line != "" && Reflects(p, a) && !HeadStep(env, p, line).phase.Failed?
    ensures TookField(env, p, line, a, HeadStep(env, p, line))
  {
    hide HeaderLine;
    var q := p.(headerCount := p.headerCount + 1);
    assert HeadStep(env, p, line) == HeaderLine(env, q, line, false);
    HeaderLineReflects(env, q, line, a);
    HeaderLineFrame(env, q, line);
  }

  lemma {:induction false} HeaderLineFrame(env: Env, p: Parser, line: string)
    requires !p.phase.Failed? && !HeaderLine(env, p, line, false).phase.Failed?
    ensures var p' := HeaderLine(env, p, line, false);
      && p'.phase == p.phase && p'.headerCount == p.headerCount
      && p'.status == p.status && p'.major == p.major && p'.minor == p.minor
  {
    var (name, value) := SplitField(line).value;
    CallShape(env, p, HdrKey(name));
    var p1 := Call(env, p, HdrKey(name));
    NoteFieldRest(env, p1, name, value);
    CallShape(env, NoteField(env, p1, name, value), HdrVal(value));
  }

  lemma {:induction false} NoteFieldRest(env: Env, p: Parser, name: string, value: string)
    requires !p.phase.Failed?
    ensures var p' := NoteField(env, p, name, value);
      && (p'.phase == p.phase || p'.phase.Failed?) && p'.headerCount == p.headerCount
      && p'.status == p.status && p'.major == p.major && p'.minor == p.minor
  {
    if |name| == 4 {
      CallShape(env, p.(flags := p.flags + {HaveHost}), Hostname(value));
    } else if |name| == 14 {
      NoteLengthsRest(p, env.elements(value));
    }
  }

  lemma {:induction false} NoteLengthsRest(p: Parser, lengths: seq<string>)
    ensures var p' := NoteLengths(p, lengths);
      && (p'.phase == p.phase || p'.phase.Failed?) && p'.headerCount == p.headerCount
      && p'.status == p.status && p'.major == p.major && p'.minor == p.minor
    decreases |lengths|
  {
    if lengths != [] {
      NoteLengthsRest(NoteOneLength(p, lengths[0]), lengths[1..]);
    }
  }

  lemma {:induction false} FactsSnoc(env: Env, fields: seq<Field>, f: Field)
    ensures FactsOf(env, fields + [f]) == AddFact(env, FactsOf(env, fields), f)
  {
    assert (fields + [f])[..|fields|] == fields;
  }

  lemma {:induction false} SplitsSnoc(init: seq<string>, line: string)
    requires line != ""
    ensures AllFields(init + [line]) <==> AllFields(init) && SplitField(line).Some?
    ensures AllFields(init + [line]) ==> FieldsOf(init + [line]) == FieldsOf(init) + [SplitField(line).value]
  {
    hide SplitField;
    var all := init + [line];
    assert all[|init|] == line && forall i :: 0 <= i < |init| ==> all[i] == init[i];
  }

  lemma {:induction false} TookOne(env: Env, head: LineTaker, p: Parser, line: string, a: Facts)
    requires TakesFields(env, head) && p.phase.Headers? && line != "" && Reflects(p, a) && !head(p, line).phase.Failed?
    ensures TookField(env, p, line, a, head(p, line))
  {
  }

  /** After any accepted field lines, flags and length are exactly what the fields say together. */
  lemma {:induction false} HeadReflects(env: Env, head: LineTaker, p: Parser, lines: seq<string>)
    requires TakesFields(env, head)
    requires p.phase.Headers? && Reflects(p, NO_FACTS) && (forall i :: 0 <= i < |lines| ==> lines[i] != "")
    requires !TakeHead(head, p, lines).phase.Failed?
    ensures AllFields(lines) && Reflects(TakeHead(head, p, lines), FactsOf(env, FieldsOf(lines)))
    ensures var p' := TakeHead(head, p, lines);
      && p'.phase.Headers? && p'.headerCount == p.headerCount + |lines|
      && p'.status == p.status && p'.major == p.major && p'.minor == p.minor
  {
    if lines == [] {
      assert FieldsOf(lines) == [];
    } else {
      var init, line := lines[..|lines| - 1], lines[|lines| - 1];
      hide Reflects, TakesFields, FieldsOf, AllFields, SplitField, AddFact, FactsOf;
      HeadReflects(env, head, p, init);
      TookOne(env, head, TakeHead(head, p, init), line, FactsOf(env, FieldsOf(init)));
      assert lines == init + [line];
      SplitsSnoc(init, line);
      FactsSnoc(env, FieldsOf(init), SplitField(line).value);
    }
  }

  // ---------------------------------------------------------------------------------------
  // The rule
  // ---------------------------------------------------------------------------------------

  predicate ChunkedOnceAndLast(codings: seq<Coding>) {
    codings != [] && codings[|codings| - 1].ChunkedCoding? && ChunkedCoding !in codings[..|codings| - 1]
  }

  /**
   Where a body ends, from the facts about a head alone; None refuses the message. Chunked framing
   needs chunked exactly once and last; a request must have that or lengths, never both, and know
   every coding; a response with other codings, or an old one with no length, runs until close.
   */
  function FramingRule(kind: Kind, skip: bool, status: nat, version: nat, a: Facts, length: nat): Option<BodyKind> {
    if skip || (kind.Response? && (status < 200 || status == 204 || status == 304)) then Some(NoBody)
    else if a.hasCoding then
      if ChunkedEarly(a.codings) then None
      else if kind.Response? then Some(if ChunkedOnceAndLast(a.codings) then Chunked else Identity)
      else if ChunkedOnceAndLast(a.codings) && UnknownCoding !in a.codings && a.lengths == [] then Some(Chunked)
      else None
    else if a.lengths != [] then Some(if length > 0 then Length else NoBody)
    else if kind.Response? && version < 11 && KeepAliveToken !in a.tokens then Some(Identity)
    else Some(NoBody)
  }

  lemma {:induction false} ChunkedPlaces(codings: seq<Coding>)
    ensures HasChunked(codings) && !ChunkedEarly(codings) <==> ChunkedOnceAndLast(codings)
  {
    if codings != [] {
      assert codings == codings[..|codings| - 1] + [codings[|codings| - 1]];
    }
  }

  /** framing does what the rule says of the head's facts. */
  lemma {:induction false} FramingFollowsRule(kind: Kind, p: Parser, a: Facts)
    requires Reflects(p, a)
    ensures BodyOf(kind, p) ==
      FramingRule(kind, Skipping in p.flags, p.status, p.major * 10 + p.minor, a, p.origContentLen)
  {
    ChunkedPlaces(a.codings);
  }

  // ---------------------------------------------------------------------------------------
  // From the first byte of a message to the blank line
  // ---------------------------------------------------------------------------------------

  /** A message that has just begun has no facts. */
  lemma {:induction false} BeginsReflects(env: Env, p: Parser)
    ensures Reflects(Begins(env, p), NO_FACTS)
  {
    CallReflects(env, Reset(p).(phase := HeadLine), MsgBegin, NO_FACTS);
  }

  lemma {:induction false} CallAllReflects(env: Env, p: Parser, events: seq<Event>, a: Facts)
    requires Reflects(p, a)
    ensures Reflects(CallAll(env, p, events), a)
    decreases |events|
  {
    hide Reflects;
    if events != [] {
      CallReflects(env, p, events[0], a);
      CallAllReflects(env, Call(env, p, events[0]), events[1..], a);
    }
  }

  lemma {:induction false} TargetReflects(env: Env, p: Parser, m: string, t: string, a: Facts)
    requires Reflects(p, a) && t != []
    ensures Reflects(MethodAndTarget(env, p, m, t), a)
  {
    hide CallAll, TargetEvents, TargetScheme;
    CallReflects(env, p, MethodIs(m), a);
    var p1 := Call(env, p, MethodIs(m));
    var own := t[0] == '/' || t == "*";
    var u := if own then BadUri else env.uri(t, p1.method_ == "CONNECT");
    CallAllReflects(env, p1.(scheme := TargetScheme(env, t, u)), TargetEvents(t, u), a);
  }

  /** The start line says nothing about the body. */
  lemma {:induction false} StartLineReflects(env: Env, p: Parser, line: string)
    requires p.phase.HeadLine? && Reflects(p, NO_FACTS)
    ensures var p' := HeadStep(env, p, line); Reflects(p', NO_FACTS) && (p'.phase.Headers? || p'.phase.Failed?)
  {
    hide MethodAndTarget, NextToken, Version, MethodName;
    var (m, line1) := NextToken(line);
    var (t, line2) := NextToken(line1);
    var (v, line3) := NextToken(line2);
    if t != "" && Version(v).Some? {
      var (major, minor) := Version(v).value;
      TargetReflects(env, p.(method_ := MethodName(m), major := major, minor := minor), m, t, NO_FACTS);
    }
    var p1 := if env.kind.Request? then RequestLine(env, p, line) else StatusLine(p, line);
    CallReflects(env, p1.(phase := Headers), HdrsBegin, NO_FACTS);
    CallShape(env, p1.(phase := Headers), HdrsBegin);
  }

  /** The rule for a head with these facts, when the blank line comes. */
  function RuleFor(env: Env, p: Parser, a: Facts): Option<BodyKind> {
    FramingRule(env.kind, Skipping in p.flags, p.status, p.major * 10 + p.minor, a, p.origContentLen)
  }

  /** What the blank line does: the message is refused, or the hook is told the body and its length. */
  ghost predicate Framed(p: Parser, rule: Option<BodyKind>, p': Parser) {
    match rule
    case None => p'.phase.Failed? && p'.error.InvalidHeader? && p'.trace == p.trace
    case Some(b) => p'.trace == p.trace + [HdrsComplete(b, p.origContentLen)]
  }

  lemma {:induction false} BlankLineFrames(env: Env, p: Parser, a: Facts)
    requires p.phase.Headers? && Reflects(p, a)
    ensures Framed(p, RuleFor(env, p, a), HeadStep(env, p, ""))
  {
    FramingFollowsRule(env.kind, p, a);
    hide BodyOf, FramingRule, Reflects;
    var p1 := Framing(env, p);
    CallShape(env, p1.(phase := if p1.body.NoBody? then Complete else Body), HdrsComplete(p1.body, p1.origContentLen));
  }

  /** The version, and of a response the status, are those the start line is written with. */
  ghost predicate StartsWith(env: Env, start: string, p: Parser) {
    if env.kind.Response? then StatusWords(start, p.major, p.minor, p.status)
    else exists m, t :: RequestIs(env, start, m, t, p.major, p.minor)
  }

  lemma {:induction false} StartLineSays(env: Env, p: Parser, line: string)
    requires p.phase.HeadLine? && !HeadStep(env, p, line).phase.Failed?
    ensures StartsWith(env, line, HeadStep(env, p, line))
  {
    var p1 := if env.kind.Request? then RequestLine(env, p, line) else StatusLine(p, line);
    CallShape(env, p1.(phase := Headers), HdrsBegin);
    if env.kind.Request? {
      hide Call, RequestIs, RequestLine;
      var m, t := RequestLineSays(env, p, line);
    } else {
      hide Call, StatusLine, StatusWords;
      StatusLineIs(p, line);
    }
  }

  lemma {:induction false} SameWords(env: Env, start: string, p: Parser, q: Parser)
    requires StartsWith(env, start, p) && q.status == p.status && q.major == p.major && q.minor == p.minor
    ensures StartsWith(env, start, q)
  {
    hide RequestIs, StatusWords;
  }

  /** A head from its message's first byte on: the start line, then field lines; Failed once anything is refused. */
  function WholeHead(env: Env, p: Parser, start: string, lines: seq<string>): Parser {
    var p1 := Begins(env, p);
    if p1.phase.Failed? then p1
    else
      var p2 := HeadStep(env, p1, start);
      if p2.phase.Failed? then p2 else TakeHead(Head(env), p2, lines)
  }

  /**
   The whole head: whatever was before, whatever start line and field lines were accepted, the blank
   line refuses the message or tells its body and length, by the rule applied to the status and version
   the start line is written with, the joined codings, the agreed lengths and the joined connection tokens.
   */
  lemma {:induction false} HeadIsFramedByRule(env: Env, p: Parser, start: string, lines: seq<string>)
    requires forall i :: 0 <= i < |lines| ==> lines[i] != ""
    requires !WholeHead(env, p, start, lines).phase.Failed?
    ensures AllFields(lines)
    ensures
      var q, a := WholeHead(env, p, start, lines), FactsOf(env, FieldsOf(lines));
      && q.phase.Headers? && Reflects(q, a) && AllAre(a.lengths, q.origContentLen)
      && Framed(q, RuleFor(env, q, a), HeadStep(env, q, ""))
      && StartsWith(env, start, q)
  {
    hide HeadStep, Framed, RuleFor, StartsWith;
    StartLineSays(env, Begins(env, p), start);
    SameStart(env, p, start, lines);
    SameWords(env, start, HeadStep(env, Begins(env, p), start), WholeHead(env, p, start, lines));
    BeginsReflects(env, p);
    BeginsInHeadLine(env, p);
    StartLineReflects(env, Begins(env, p), start);
    HeadTakesFields(env);
    HeadReflects(env, Head(env), HeadStep(env, Begins(env, p), start), lines);
    BlankLineFrames(env, WholeHead(env, p, start, lines), FactsOf(env, FieldsOf(lines)));
  }

  lemma {:induction false} BeginsInHeadLine(env: Env, p: Parser)
    ensures Begins(env, p).phase.HeadLine? || Begins(env, p).phase.Failed?
  {
  }

  // ---------------------------------------------------------------------------------------
  // Order and repetition
  // ---------------------------------------------------------------------------------------

  function CodingFields(env: Env, fields: seq<Field>): seq<Field>
    decreases |fields|
  {
    if fields == [] then []
    else
      var f := fields[|fields| - 1];
      CodingFields(env, fields[..|fields| - 1]) + (if CodingField(env, f) then [f] else [])
  }

  /**
   Heads that differ only in ways that do not matter: the same Transfer-Encoding fields in the same
   order, and the same Content-Length and Connection fields, each in any place and any number of times.
   */
  ghost predicate SaysTheSame(env: Env, a: seq<Field>, b: seq<Field>) {
    && CodingFields(env, a) == CodingFields(env, b)
    && (forall f :: LengthField(env, f) ==> (f in a <==> f in b))
    && (forall f :: ConnectionField(env, f) ==> (f in a <==> f in b))
  }

  /** Fields change places unless both are Transfer-Encoding. */
  lemma {:induction false} SwapSaysTheSame(env: Env, before: seq<Field>, f: Field, g: Field, after: seq<Field>)
    requires !(CodingField(env, f) && CodingField(env, g))
    ensures SaysTheSame(env, before + [f, g] + after, before + [g, f] + after)
    decreases |after|
  {
    var a, b := before + [f, g] + after, before + [g, f] + after;
    if after == [] {
      assert a == before + [f] + [g] && b == before + [g] + [f];
      CodingFieldsSnoc(env, before + [f], g);
      CodingFieldsSnoc(env, before, f);
      CodingFieldsSnoc(env, before + [g], f);
      CodingFieldsSnoc(env, before, g);
    } else {
      var init, h := after[..|after| - 1], after[|after| - 1];
      SwapSaysTheSame(env, before, f, g, init);
      assert a == before + [f, g] + init + [h] && b == before + [g, f] + init + [h];
      CodingFieldsSnoc(env, before + [f, g] + init, h);
      CodingFieldsSnoc(env, before + [g, f] + init, h);
    }
  }

  /** A Content-Length, a Connection or any other field may be repeated later; a Transfer-Encoding may not. */
  lemma {:induction false} RepeatSaysTheSame(env: Env, before: seq<Field>, f: Field, after: seq<Field>)
    requires f in before && !CodingField(env, f)
    ensures SaysTheSame(env, before + after, before + [f] + after)
    decreases |after|
  {
    if after == [] {
      assert before + after == before && before + [f] + after == before + [f];
      CodingFieldsSnoc(env, before, f);
    } else {
      var init, h := after[..|after| - 1], after[|after| - 1];
      RepeatSaysTheSame(env, before, f, init);
      assert before + after == before + init + [h] && before + [f] + after == before + [f] + init + [h];
      CodingFieldsSnoc(env, before + init, h);
      CodingFieldsSnoc(env, before + [f] + init, h);
    }
  }

  lemma {:induction false} CodingFieldsSnoc(env: Env, fields: seq<Field>, f: Field)
    ensures CodingFields(env, fields + [f]) == CodingFields(env, fields) + (if CodingField(env, f) then [f] else [])
  {
    assert (fields + [f])[..|fields|] == fields;
  }

  /** The joined codings are those of the Transfer-Encoding fields alone. */
  lemma {:induction false} CodingsFactored(env: Env, fields: seq<Field>)
    ensures var a, b := FactsOf(env, fields), FactsOf(env, CodingFields(env, fields));
      a.hasCoding == b.hasCoding && a.codings == b.codings
    decreases |fields|
  {
    if fields != [] {
      var init, f := fields[..|fields| - 1], fields[|fields| - 1];
      CodingsFactored(env, init);
      if CodingField(env, f) {
        FactsSnoc(env, CodingFields(env, init), f);
      } else {
        assert CodingFields(env, fields) == CodingFields(env, init);
      }
    }
  }

  /** A length counts exactly when some Content-Length field lists it, a token when some Connection field does. */
  lemma {:induction false} FactsComeFromFields(env: Env, fields: seq<Field>)
    ensures var a := FactsOf(env, fields);
      && (forall l :: l in a.lengths <==> exists f :: f in fields && Lists(env, f, l))
      && (KeepAliveToken in a.tokens <==> exists f :: f in fields && KeepsAlive(env, f))
    decreases |fields|
  {
    if fields != [] {
      var init, f := fields[..|fields| - 1], fields[|fields| - 1];
      FactsComeFromFields(env, init);
      assert fields == init + [f];
      forall l
        ensures l in FactsOf(env, fields).lengths <==> exists g :: g in fields && Lists(env, g, l)
      {
        assert Lists(env, f, l) ==> f in fields;
      }
      assert KeepsAlive(env, f) ==> f in fields;
    }
  }

  predicate Lists(env: Env, f: Field, l: string) {
    !CodingField(env, f) && LengthField(env, f) && l in env.elements(f.1)
  }

  predicate KeepsAlive(env: Env, f: Field) {
    !CodingField(env, f) && !LengthField(env, f) && ConnectionField(env, f) && KeepAliveToken in TokensOf(env, f.1)
  }

  /** Heads that say the same have the same facts, as far as framing looks. */
  ghost predicate Alike(a: Facts, b: Facts) {
    && a.hasCoding == b.hasCoding && a.codings == b.codings
    && (forall l :: l in a.lengths <==> l in b.lengths)
    && (KeepAliveToken in a.tokens <==> KeepAliveToken in b.tokens)
  }

  lemma {:induction false} SameFacts(env: Env, a: seq<Field>, b: seq<Field>)
    requires SaysTheSame(env, a, b)
    ensures Alike(FactsOf(env, a), FactsOf(env, b))
  {
    CodingsFactored(env, a);
    CodingsFactored(env, b);
    FactsComeFromFields(env, a);
    FactsComeFromFields(env, b);
  }

  lemma {:induction false} AlikeRule(env: Env, p: Parser, q: Parser, a: Facts, b: Facts)
    requires Alike(a, b) && Reflects(p, a) && Reflects(q, b)
    requires p.status == q.status && p.major == q.major && p.minor == q.minor &&
      (Skipping in p.flags <==> Skipping in q.flags)
    ensures p.origContentLen == q.origContentLen && RuleFor(env, p, a) == RuleFor(env, q, b)
  {
    if a.lengths != [] {
      assert a.lengths[0] in b.lengths;
    }
    if b.lengths != [] {
      assert b.lengths[0] in a.lengths;
    }
  }

  /**
   Repeating fields, or ordering different fields differently, changes nothing: two accepted heads
   with one start line that say the same are both refused at the blank line, or both told the same
   body and length.
   */
  lemma {:induction false} FramingIgnoresOrder(env: Env, p: Parser, start: string, lines: seq<string>,
      other: seq<string>)
    requires forall i :: 0 <= i < |lines| ==> lines[i] != ""
    requires forall i :: 0 <= i < |other| ==> other[i] != ""
    requires !WholeHead(env, p, start, lines).phase.Failed? && !WholeHead(env, p, start, other).phase.Failed?
    requires AllFields(lines) && AllFields(other) && SaysTheSame(env, FieldsOf(lines), FieldsOf(other))
    requires Skipping in WholeHead(env, p, start, lines).flags <==> Skipping in WholeHead(env, p, start, other).flags
    ensures
      var q, r := WholeHead(env, p, start, lines), WholeHead(env, p, start, other);
      exists rule :: Framed(q, rule, HeadStep(env, q, "")) && Framed(r, rule, HeadStep(env, r, "")) &&
        q.origContentLen == r.origContentLen
  {
    hide HeadStep, Framed, RuleFor, Reflects, FactsOf, SaysTheSame, Alike;
    HeadIsFramedByRule(env, p, start, lines);
    HeadIsFramedByRule(env, p, start, other);
    SameFacts(env, FieldsOf(lines), FieldsOf(other));
    SameStart(env, p, start, lines);
    SameStart(env, p, start, other);
    var q, r := WholeHead(env, p, start, lines), WholeHead(env, p, start, other);
    AlikeRule(env, q, r, FactsOf(env, FieldsOf(lines)), FactsOf(env, FieldsOf(other)));
    assert Framed(q, RuleFor(env, q, FactsOf(env, FieldsOf(lines))), HeadStep(env, q, ""));
  }

  /** Status and version are the start line's. */
  lemma {:induction false} SameStart(env: Env, p: Parser, start: string, lines: seq<string>)
    requires forall i :: 0 <= i < |lines| ==> lines[i] != ""
    requires !WholeHead(env, p, start, lines).phase.Failed?
    ensures var q, s := WholeHead(env, p, start, lines), HeadStep(env, Begins(env, p), start);
      q.status == s.status && q.major == s.major && q.minor == s.minor
  {
    hide HeadStep, Reflects;
    BeginsReflects(env, p);
    BeginsInHeadLine(env, p);
    StartLineReflects(env, Begins(env, p), start);
    HeadTakesFields(env);
    HeadReflects(env, Head(env), HeadStep(env, Begins(env, p), start), lines);
  }
}
