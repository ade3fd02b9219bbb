/**
 An ordinary reply, sent whole by evhtp_send_reply, is read back by the parser, however the stream is cut.
 */
module PlainReply {
  import opened Prelude
  import opened Text
  import opened Incremental
  import opened ParserSpec
  import opened ParserRuns
  import opened ParserFraming
  import opened ParserAcceptance
  import opened Numbers
  import opened ChunkWriter
  import opened ReplyRead
  import opened MessageRead
  import HT = HeadTells
  import Once = ParserOnce
  import SL = StartLines

  // ---------------------------------------------------------------------------------------
  // Names
  // ---------------------------------------------------------------------------------------

  predicate NameLike(s: string) {
    forall i :: 0 <= i < |s| ==> 'a' <= s[i] <= 'z' || 'A' <= s[i] <= 'Z' || s[i] == '-'
  }

  /** Among names of letters and hyphens, match_header_key finds the same name in either case. */
  lemma {:induction false} KeyIgnoresCase(h: Header, name: string)
    requires NameLike(h.0) && NameLike(name)
    ensures KeyIs(h, name) <==> HT.Lowered(h.0) == HT.Lowered(name)
  {
    if |h.0| == |name| {
      forall i | 0 <= i < |name| ensures Low(h.0[i]) == Low(name[i]) <==> HT.Lowered(h.0)[i] == HT.Lowered(name)[i] {
        LetterLow(h.0[i], name[i]);
      }
      hide Low;
      if KeyIs(h, name) {
        assert forall i :: 0 <= i < |name| ==> HT.Lowered(h.0)[i] == HT.Lowered(name)[i];
      }
    }
  }

  lemma {:induction false} LetterLow(c: char, d: char)
    requires ('a' <= c <= 'z' || 'A' <= c <= 'Z' || c == '-') && ('a' <= d <= 'z' || 'A' <= d <= 'Z' || d == '-')
    ensures Low(c) == Low(d) <==> HT.Lower(c) == HT.Lower(d)
  {
    LowIs(c);
    LowIs(d);
  }

  lemma {:induction false} LowIs(c: char)
    requires 'a' <= c <= 'z' || 'A' <= c <= 'Z' || c == '-'
    ensures Low(c) == HT.Lower(c) as int
  {
  }

  // ---------------------------------------------------------------------------------------
  // What the fields say together
  // ---------------------------------------------------------------------------------------

  lemma {:induction false} FactsJoin(env: Env, a: seq<Field>, b: seq<Field>)
    ensures var x, y, z := FactsOf(env, a), FactsOf(env, b), FactsOf(env, a + b);
      z.lengths == x.lengths + y.lengths && z.hasCoding == (x.hasCoding || y.hasCoding)
    decreases |b|
  {
    hide FactsOf, AddFact, CodingField, LengthField;
    if b == [] {
      assert a + b == a;
      NoFieldsNoFacts(env);
      assert FactsOf(env, a).lengths + [] == FactsOf(env, a).lengths;
    } else {
      var init, f := b[..|b| - 1], b[|b| - 1];
      assert a + b == (a + init) + [f] && b == init + [f];
      FactsSnoc(env, a + init, f);
      FactsSnoc(env, init, f);
      FactsJoin(env, a, init);
      var l := if !CodingField(env, f) && LengthField(env, f) then env.elements(f.1) else [];
      OneMore(env, FactsOf(env, a + init), f, l);
      OneMore(env, FactsOf(env, init), f, l);
      LengthsRegroup(FactsOf(env, a).lengths, FactsOf(env, init).lengths, l);
    }
  }

  lemma {:induction false} LengthsRegroup(a: seq<string>, b: seq<string>, c: seq<string>)
    ensures a + b + c == a + (b + c)
  {
  }

  lemma {:induction false} OneMore(env: Env, a: Facts, f: Field, l: seq<string>)
    requires l == if !CodingField(env, f) && LengthField(env, f) then env.elements(f.1) else []
    ensures var b := AddFact(env, a, f);
      b.lengths == a.lengths + l && b.hasCoding == (a.hasCoding || CodingField(env, f))
  {
    assert a.lengths + [] == a.lengths;
  }

  /** Fields that are neither lengths nor codings say nothing about the body. */
  ghost predicate Silent(env: Env, headers: seq<Header>) {
    forall h :: h in headers ==> !CodingField(env, ReadField(h)) && !LengthField(env, ReadField(h))
  }

  lemma {:induction false} SilentFacts(env: Env, headers: seq<Header>)
    requires Silent(env, headers)
    ensures var a := FactsOf(env, ReadFields(headers)); a.lengths == [] && !a.hasCoding
    decreases |headers|
  {
    hide CodingField, LengthField, ReadField;
    if headers != [] {
      var init, h := headers[..|headers| - 1], headers[|headers| - 1];
      SilentFacts(env, init);
      assert h in headers;
      assert ReadFields(headers) == ReadFields(init) + [ReadField(h)];
      FactsSnoc(env, ReadFields(init), ReadField(h));
    }
  }

  /** The little that is asked of the string library: it knows the name, and a number is one element. */
  ghost predicate KnowsLengths(env: Env) {
    env.equalsI(CONTENT_LENGTH, CONTENT_LENGTH) && forall n: nat :: env.elements(Numeral(n)) == [Numeral(n)]
  }

  /** A length field is read as the number it is sent with. */
  lemma {:induction false} LengthFacts(env: Env, n: nat)
    requires KnowsLengths(env)
    ensures var h := (CONTENT_LENGTH, Numeral(n)); var a := FactsOf(env, ReadFields([h]));
      && Sendable(h) && LengthField(env, ReadField(h)) && ReadField(h).1 == Numeral(n)
      && a.lengths == [Numeral(n)] && !a.hasCoding
  {
    var h := (CONTENT_LENGTH, Numeral(n));
    LengthFieldRead(env, n);
    ElementsOf(env, n);
    hide Numeral, ReadField, FactsOf, AddFact, KnowsLengths, Sendable;
    ReadFieldsOne(h);
    FactsSnoc(env, [], ReadField(h));
    NoFieldsNoFacts(env);
    assert [] + [ReadField(h)] == [ReadField(h)];
    LengthAdds(env, ReadField(h), [Numeral(n)]);
  }

  lemma {:induction false} ElementsOf(env: Env, n: nat)
    requires KnowsLengths(env)
    ensures env.elements(Numeral(n)) == [Numeral(n)]
  {
    hide Numeral;
  }

  lemma {:induction false} LengthAdds(env: Env, f: Field, l: seq<string>)
    requires LengthField(env, f) && env.elements(f.1) == l
    ensures AddFact(env, NO_FACTS, f).lengths == l && !AddFact(env, NO_FACTS, f).hasCoding
  {
    assert [] + l == l;
  }

  lemma {:induction false} LengthFieldRead(env: Env, n: nat)
    requires KnowsLengths(env)
    ensures var h := (CONTENT_LENGTH, Numeral(n));
      Sendable(h) && LengthField(env, ReadField(h)) && ReadField(h).1 == Numeral(n)
  {
    NumeralPlain(n);
    HT.ValueRead(" ", Numeral(n), "");
    assert " " + Numeral(n) + "" == " " + Numeral(n);
    hide Numeral, TrimLeft, TrimRight;
  }

  lemma {:induction false} NumeralPlain(n: nat)
    ensures HT.Trimmed(Numeral(n)) && '\n' !in Numeral(n)
  {
    var s := Numeral(n);
    hide Numeral, Decimal;
    assert Digit(s[0]) && Digit(s[|s| - 1]);
  }

  lemma {:induction false} SilentJoin(env: Env, a: seq<Header>, b: seq<Header>)
    requires Silent(env, a) && Silent(env, b)
    ensures Silent(env, a + b)
  {
    hide CodingField, LengthField, ReadField;
  }

  /** Connection and Content-Type are silent. */
  lemma {:induction false} GainedSilent(env: Env, t: Terms, headers: seq<Header>)
    ensures Silent(env, ConnectionGained(t)) && Silent(env, TypeGained(headers))
    ensures forall h :: h in ConnectionGained(t) || h in TypeGained(headers) ==> Sendable(h)
  {
    hide HasField;
  }

  /** Around a length, silent fields leave it as it is. */
  lemma {:induction false} LengthAmong(env: Env, before: seq<Header>, l: seq<Header>, after: seq<Header>, n: nat)
    requires KnowsLengths(env) && Silent(env, before) && Silent(env, after)
    requires l == [] || l == [(CONTENT_LENGTH, Numeral(n))]
    ensures var a := FactsOf(env, ReadFields(before + l + after));
      a.lengths == (if l == [] then [] else [Numeral(n)]) && !a.hasCoding
    ensures forall f :: f in ReadFields(before + l + after) && LengthField(env, f) ==> env.elements(f.1) != []
  {
    SilentFacts(env, before);
    SilentFacts(env, after);
    LengthFacts(env, n);
    hide ReadField, CodingField, LengthField, Numeral, KnowsLengths, FactsOf;
    ReadFieldsJoin(before + l, after);
    ReadFieldsJoin(before, l);
    FactsJoin(env, ReadFields(before) + ReadFields(l), ReadFields(after));
    FactsJoin(env, ReadFields(before), ReadFields(l));
    if l == [] {
      assert ReadFields(l) == [];
      NoFieldsNoFacts(env);
    }
    LengthsListed(env, before, l, after, n);
  }

  lemma {:induction false} NoFieldsNoFacts(env: Env)
    ensures FactsOf(env, []) == NO_FACTS
  {
  }

  lemma {:induction false} LengthsListed(env: Env, before: seq<Header>, l: seq<Header>, after: seq<Header>, n: nat)
    requires KnowsLengths(env) && Silent(env, before) && Silent(env, after)
    requires l == [] || l == [(CONTENT_LENGTH, Numeral(n))]
    ensures forall f :: f in ReadFields(before + l + after) && LengthField(env, f) ==> env.elements(f.1) != []
  {
    LengthFacts(env, n);
    assert env.elements(Numeral(n)) == [Numeral(n)];
    hide ReadField, LengthField, Numeral, FactsOf, CodingField, Sendable;
    var all := before + l + after;
    forall i | 0 <= i < |all| && LengthField(env, ReadField(all[i])) ensures env.elements(ReadField(all[i]).1) != [] {
      Among(before, l, after, all[i]);
    }
  }

  lemma {:induction false} Among(a: seq<Header>, b: seq<Header>, c: seq<Header>, h: Header)
    requires h in a + b + c
    ensures h in a || h in b || h in c
  {
  }

  // ---------------------------------------------------------------------------------------
  // The reply
  // ---------------------------------------------------------------------------------------

  /** A reply the application gave no length and no coding of its own, and whose length is stated truly. */
  ghost predicate Ordinary(env: Env, t: Terms, headers: seq<Header>, body: string) {
    && (forall h :: h in headers ==> Sendable(h)) && Silent(env, headers) && !HasField(headers, CONTENT_LENGTH)
    && (t.multipart ==> body == "") && |body| < U64_LIMIT
  }

  /**
   The length an HTTP/1.1 peer is told, where the application told none, is that of the body, exactly unless the
   request was a multipart one and there is a body: such a reply is announced as empty.
   */
  lemma {:induction false} LengthIsTrue(t: Terms, length: nat, headers: seq<Header>)
    requires t.proto.Http11? && !HasField(headers, CONTENT_LENGTH)
    ensures Named(ReplyFields(t, false, length, headers), CONTENT_LENGTH) == [(CONTENT_LENGTH, Numeral(length))] <==>
      !(t.multipart && length > 0)
  {
    hide Named, HasField, ReplyFields, Numeral, Decimal;
    NamedSent(t, false, length, headers, CONTENT_LENGTH);
    NamedIffHas(headers, CONTENT_LENGTH);
    ZeroIs();
    assert Decimal(Numeral(length)) == length && Decimal(Numeral(0)) == 0;
    var gained := LengthGained(t, false, length, headers);
    assert [] + gained == gained;
  }

  /** What an ordinary reply's fields say. */
  lemma {:induction false} OrdinaryFacts(env: Env, t: Terms, headers: seq<Header>, body: string)
    requires KnowsLengths(env) && Ordinary(env, t, headers, body)
    ensures var sent := ReplyFields(t, false, |body|, headers); var a := FactsOf(env, ReadFields(sent));
      && (forall h :: h in sent ==> Sendable(h))
      && !a.hasCoding && (a.lengths == [Numeral(|body|)] || (a.lengths == [] && body == "" && !t.proto.Http11?))
      && Acceptable(env, ReadFields(sent)) && AllAre(a.lengths, |body|)
  {
    var n := |body|;
    var l, c, y := LengthGained(t, false, n, headers), ConnectionGained(t), TypeGained(headers);
    FieldsGained(t, false, n, headers);
    GainedSilent(env, t, headers);
    LengthFacts(env, n);
    ZeroIs();
    PrintedReadsBack(n);
    assert l == [] || l == [(CONTENT_LENGTH, Numeral(n))];
    hide HasField, ReadField, Numeral, ReplyFields, KnowsLengths, Sendable, FactsOf, CodingField, LengthField, Silent,
      ConnectionGained, TypeGained, ReadFields;
    SilentJoin(env, c, y);
    SilentJoin(env, headers, c);
    LengthAmong(env, headers, l, c + y, n);
    LengthAmong(env, headers + c, l, y, n);
    Regrouped(headers, l, c, y);
    AllSendable(headers, l, c, y);
    AllSendable(headers, c, l, y);
    OneIsOne(n);
    hide AllAre, OneNumber;
  }

  lemma {:induction false} Regrouped(a: seq<Header>, b: seq<Header>, c: seq<Header>, d: seq<Header>)
    ensures a + b + c + d == a + b + (c + d)
  {
  }

  lemma {:induction false} AllSendable(a: seq<Header>, b: seq<Header>, c: seq<Header>, d: seq<Header>)
    requires forall h :: h in a || h in b || h in c || h in d ==> Sendable(h)
    ensures forall h :: h in a + b + c + d ==> Sendable(h)
  {
    hide Sendable;
  }

  lemma {:induction false} ZeroIs()
    ensures Numeral(0) == "0"
  {
  }

  lemma {:induction false} OneIsOne(n: nat)
    requires ParseU64(Numeral(n)) == Some(n)
    ensures AllAre([], n) && AllAre([Numeral(n)], n) && OneNumber([]) && OneNumber([Numeral(n)])
  {
    hide Numeral;
    assert AllAre([], n) && AllAre([Numeral(n)], n);
  }

  /** An ordinary reply's head says how its body ends, and the body ends so. */
  lemma {:induction false} OrdinaryFrames(env: Env, t: Terms, code: nat, reason: string, headers: seq<Header>,
                                          body: string) returns (b: BodyKind)
    requires KnowsLengths(env) && env.kind.Response? && Ordinary(env, t, headers, body)
    requires 0 < t.major < 10 && t.minor < 10 && 200 <= code <= 999 && code != 204 && code != 304
    requires Room(env, |ReplyFields(t, false, |body|, headers)|)
    ensures Frames(env, StatusText(t, code, reason), FieldTexts(ReplyFields(t, false, |body|, headers)), b, |body|)
    ensures BodyFits(env, b, |body|, [body]) && !b.Chunked? && (b.Identity? ==> !t.proto.Http11? && body == "")
  {
    var sent, n := ReplyFields(t, false, |body|, headers), |body|;
    var start, lines := StatusText(t, code, reason), FieldTexts(sent);
    OrdinaryFacts(env, t, headers, body);
    FieldsRead(sent);
    StatusSent(t, code, reason);
    hide StatusText, ReplyFields, FactsOf, FieldsOf, AllFields, Acceptable, Sendable, Numeral, AllAre, SL.StatusWords,
      Frames, BodyFits, FramingRule;
    var a, version := FactsOf(env, ReadFields(sent)), SentMajor(t) * 10 + SentMinor(t);
    assert StartsAs(env, start, code, version);
    b := OrdinaryRule(code, version, a, body);
    PartFits(env, b, body);
    FramesSo(env, start, lines, b, n, code, version);
  }

  lemma {:induction false} PartFits(env: Env, b: BodyKind, body: string)
    requires !b.Chunked? && (b.NoBody? ==> body == "")
    ensures BodyFits(env, b, |body|, [body])
  {
    OneChunk(body);
  }

  /** No coding, and a length or an empty body: the rule. */
  lemma {:induction false} OrdinaryRule(code: nat, version: nat, a: Facts, body: string) returns (b: BodyKind)
    requires 200 <= code && code != 204 && code != 304 && !a.hasCoding && (a.lengths == [] ==> body == "")
    ensures FramingRule(Response, false, code, version, a, |body|) == Some(b) && !b.Chunked?
    ensures (b.NoBody? ==> body == "") && (b.Identity? ==> a.lengths == [])
  {
    b := FramingRule(Response, false, code, version, a, |body|).value;
  }

  lemma {:induction false} FramesSo(env: Env, start: string, lines: seq<string>, b: BodyKind, n: nat, status: nat,
                                    version: nat)
    requires AllFields(lines) && Acceptable(env, FieldsOf(lines)) && Room(env, |lines|)
    requires var a := FactsOf(env, FieldsOf(lines));
      && AllAre(a.lengths, n) && (a.lengths == [] ==> n == 0)
      && FramingRule(env.kind, false, status, version, a, n) == Some(b)
    requires StartsAs(env, start, status, version)
    ensures Frames(env, start, lines, b, n)
  {
    hide AllFields, FieldsOf, Acceptable, FactsOf, AllAre, FramingRule, StartsAs, Room;
  }

  /**
   An ordinary reply, in whatever pieces it comes: the body hooks are handed exactly its body and the message is told
   complete once, by the end of the stream at the latest, and without it where the peer speaks HTTP/1.1 or there is a
   body.
   */
  lemma {:induction false} PlainReplyIsRead(
    env: Env, t: Terms, code: nat, reason: string, headers: seq<Header>, body: string, pause: nat -> bool, calls: nat,
    pieces: seq<string>)
    requires HooksGo(env) && env.kind.Response? && KnowsLengths(env) && Ordinary(env, t, headers, body)
    requires 0 < t.major < 10 && t.minor < 10 && 200 <= code <= 999 && code != 204 && code != 304
    requires HeadFits(env, StatusText(t, code, reason), ReplyFields(t, false, |body|, headers))
    requires Concat(pieces) == HeadText(t, code, reason, ReplyFields(t, false, |body|, headers)) + body
    ensures var m := ParserMachine(env, Head(env));
      && Sound(m) && m.ok(FRESH)
      && var d := Feed(m, pause, Driven(FRESH, "", calls), pieces);
         var q := AtEof(env, d.s);
         && d.rest == "" && BodyBytes(q.trace) == body && q.phase.Start? && Once.Completes(q.trace) == 1
         && (t.proto.Http11? || body != "" ==> Once.Completes(d.s.trace) == 1)
  {
    var sent := ReplyFields(t, false, |body|, headers);
    var start, lines := StatusText(t, code, reason), FieldTexts(sent);
    hide StatusText, ReplyFields, HooksGo, Ordinary, KnowsLengths, Frames, BodyFits, Feed, Sound, BodyBytes,
      Once.Completes, AtEof, LineFits, FieldText, Render;
    var b := OrdinaryFrames(env, t, code, reason, headers, body);
    forall i | 0 <= i < |lines| ensures LineFits(env, lines[i]) {
      assert sent[i] in sent;
    }
    BlankFits(env, start);
    var msg := Message(start, lines, b, |body|, [body]);
    OneMessage(env, msg, body);
    MessagesAreRead(env, [msg], pause, calls, pieces);
  }

  /** A message by itself. */
  lemma {:induction false} OneMessage(env: Env, msg: Message, body: string)
    requires Good(env, msg) && msg.parts == [body] && !msg.kind.Chunked?
    ensures AllGood(env, [msg]) && Texts([msg]) == HeadLines(msg.start, msg.lines) + body && Bodies([msg]) == body
    ensures LastIsOpen([msg]) <==> msg.kind.Identity?
  {
    hide Good, HeadLines;
    OneChunk(body);
    assert [msg][..0] == [];
    assert Texts([]) == "" && Bodies([]) == "";
    hide Concat;
    assert "" + MessageText(msg) == MessageText(msg);
    assert "" + Concat(msg.parts) == body;
  }

  lemma {:induction false} BlankFits(env: Env, line: string)
    requires LineFits(env, line)
    ensures LineFits(env, "")
  {
  }
}
