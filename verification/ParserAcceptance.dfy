/**
 Which heads the parser accepts, when its hooks let every message go on: exactly those whose lines
 split into fields and whose Content-Length values, taken together, are one number. So neither
 acceptance nor framing depends on the order or the repetition of fields.
 */
module ParserAcceptance {
  import opened Prelude
  import opened Text
  import opened ParserSpec
  import opened ParserFraming
  import G = ParserGrammar

  // ---------------------------------------------------------------------------------------
  // One field
  // ---------------------------------------------------------------------------------------

  ghost predicate OneNumber(lengths: seq<string>) {
    exists n: nat :: AllAre(lengths, n)
  }

  /** A field that can follow what the head said so far. */
  ghost predicate FieldFits(env: Env, a: Facts, f: Field) {
    LengthField(env, f) ==> env.elements(f.1) != [] && OneNumber(a.lengths + env.elements(f.1))
  }

  lemma {:induction false} NoteFieldAccepts(env: Env, p: Parser, f: Field, a: Facts)
    requires HooksGo(env) && Reflects(p, a) && !p.phase.Failed?
    ensures !NoteField(env, p, f.0, f.1).phase.Failed? <==> FieldFits(env, a, f)
  {
    hide NoteTokens, NoteLengths, NoteCodings, CodingsOf, TokensOf, AllAre, CodingsSay;
    if |f.0| == 4 {
      GoingCall(env, p.(flags := p.flags + {HaveHost}), Hostname(f.1));
    } else if |f.0| == 14 {
      LengthsSaid(p, a.lengths, env.elements(f.1));
    }
  }

  lemma {:induction false} HeaderLineAccepts(env: Env, p: Parser, line: string, a: Facts)
    requires HooksGo(env) && Reflects(p, a) && !p.phase.Failed?
    ensures !HeaderLine(env, p, line, false).phase.Failed? <==>
      SplitField(line).Some? && FieldFits(env, a, SplitField(line).value)
  {
    hide NoteField, Reflects, FieldFits, Call, SplitField;
    if SplitField(line).Some? {
      var (name, value) := SplitField(line).value;
      CallReflects(env, p, HdrKey(name), a);
      GoingCall(env, p, HdrKey(name));
      NoteFieldAccepts(env, Call(env, p, HdrKey(name)), (name, value), a);
      GoingCall(env, NoteField(env, Call(env, p, HdrKey(name)), name, value), HdrVal(value));
    }
  }

  predicate Room(env: Env, count: nat) {
    env.maxHeaders == 0 || count <= env.maxHeaders
  }

  /** Taking a line refuses it exactly when it is no field or does not fit. */
  ghost predicate AcceptsFields(env: Env, head: LineTaker) {
    forall p: Parser, line: string, a: Facts ::
      p.phase.Headers? && line != "" && Reflects(p, a) && Room(env, p.headerCount + 1) ==>
        (!head(p, line).phase.Failed? <==> SplitField(line).Some? && FieldFits(env, a, SplitField(line).value))
  }

  lemma {:induction false} HeadAcceptsField(env: Env, p: Parser, line: string, a: Facts)
    requires HooksGo(env) && p.phase.Headers? && line != "" && Reflects(p, a) && Room(env, p.headerCount + 1)
    ensures !HeadStep(env, p, line).phase.Failed? <==>
      SplitField(line).Some? && FieldFits(env, a, SplitField(line).value)
  {
    hide HeaderLine, FieldFits, SplitField;
    HeaderLineAccepts(env, p.(headerCount := p.headerCount + 1), line, a);
  }

  lemma {:induction false} HeadAcceptsFields(env: Env)
    requires HooksGo(env)
    ensures AcceptsFields(env, Head(env))
  {
    hide HeadStep, Reflects, FieldFits, SplitField, HooksGo;
    forall p: Parser, line: string, a: Facts
      | p.phase.Headers? && line != "" && Reflects(p, a) && Room(env, p.headerCount + 1)
      ensures !Head(env)(p, line).phase.Failed? <==> SplitField(line).Some? && FieldFits(env, a, SplitField(line).value)
    {
      HeadAcceptsField(env, p, line, a);
    }
  }

  // ---------------------------------------------------------------------------------------
  // Whole heads
  // ---------------------------------------------------------------------------------------

  /** Every Content-Length lists something, and all of them together are one number. */
  ghost predicate Acceptable(env: Env, fields: seq<Field>) {
    && (forall f :: f in fields && LengthField(env, f) ==> env.elements(f.1) != [])
    && OneNumber(FactsOf(env, fields).lengths)
  }

  lemma {:induction false} PrefixIsOneNumber(a: seq<string>, b: seq<string>)
    requires OneNumber(a + b)
    ensures OneNumber(a)
  {
    var n: nat :| AllAre(a + b, n);
    assert forall i :: 0 <= i < |a| ==> (a + b)[i] == a[i];
    assert AllAre(a, n);
  }

  lemma {:induction false} AcceptableSnoc(env: Env, fields: seq<Field>, f: Field)
    ensures Acceptable(env, fields + [f]) <==> Acceptable(env, fields) && FieldFits(env, FactsOf(env, fields), f)
  {
    hide OneNumber, FactsOf;
    FactsSnoc(env, fields, f);
    var a := FactsOf(env, fields);
    assert forall g :: g in fields + [f] <==> g in fields || g == f;
    if LengthField(env, f) && OneNumber(a.lengths + env.elements(f.1)) {
      PrefixIsOneNumber(a.lengths, env.elements(f.1));
    }
  }

  lemma {:induction false} NothingIsAcceptable(env: Env)
    ensures Acceptable(env, [])
  {
    assert AllAre([], 0);
  }

  /** A head is accepted exactly when its lines are fields and the fields are acceptable. */
  lemma {:induction false} HeadAccepted(env: Env, head: LineTaker, p: Parser, lines: seq<string>)
    requires TakesFields(env, head) && AcceptsFields(env, head)
    requires p.phase.Headers? && Reflects(p, NO_FACTS) && Room(env, p.headerCount + |lines|)
    requires forall i :: 0 <= i < |lines| ==> lines[i] != ""
    ensures !TakeHead(head, p, lines).phase.Failed? <==> AllFields(lines) && Acceptable(env, FieldsOf(lines))
    decreases |lines|
  {
    if lines == [] {
      assert FieldsOf(lines) == [];
      NothingIsAcceptable(env);
    } else {
      var init, line := lines[..|lines| - 1], lines[|lines| - 1];
      HeadAccepted(env, head, p, init);
      SplitsSnoc(init, line);
      assert lines == init + [line];
      var q := TakeHead(head, p, init);
      if !q.phase.Failed? {
        HeadReflects(env, head, p, init);
        LastLine(env, head, q, line, FactsOf(env, FieldsOf(init)));
      }
      hide Acceptable, FieldFits, SplitField, Reflects, FactsOf, AllFields, FieldsOf, TakesFields, AcceptsFields;
      if AllFields(init) && SplitField(line).Some? {
        AcceptableSnoc(env, FieldsOf(init), SplitField(line).value);
      }
    }
  }

  lemma {:induction false} LastLine(env: Env, head: LineTaker, q: Parser, line: string, a: Facts)
    requires AcceptsFields(env, head) && q.phase.Headers? && line != "" && Reflects(q, a) &&
      Room(env, q.headerCount + 1)
    ensures !head(q, line).phase.Failed? <==> SplitField(line).Some? && FieldFits(env, a, SplitField(line).value)
  {
  }

  // ---------------------------------------------------------------------------------------
  // Order and repetition
  // ---------------------------------------------------------------------------------------

  lemma {:induction false} SameNumber(a: seq<string>, b: seq<string>)
    requires OneNumber(a) && forall l :: l in b ==> l in a
    ensures OneNumber(b)
  {
    var n: nat :| AllAre(a, n);
    forall i | 0 <= i < |b| ensures ParseU64(b[i]) == Some(n) {
      assert b[i] in a;
    }
    assert AllAre(b, n);
  }

  lemma {:induction false} SameAcceptable(env: Env, a: seq<Field>, b: seq<Field>)
    requires SaysTheSame(env, a, b) && Acceptable(env, a)
    ensures Acceptable(env, b)
  {
    SameFacts(env, a, b);
    hide OneNumber, FactsOf, CodingFields;
    SameNumber(FactsOf(env, a).lengths, FactsOf(env, b).lengths);
  }

  /** The parser after an accepted start line, with no header field taken yet. */
  lemma {:induction false} StartCounts(env: Env, p: Parser, start: string)
    requires HooksGo(env)
    ensures !Begins(env, p).phase.Failed? && Begins(env, p).headerCount == 0 && Skipping !in Begins(env, p).flags
    ensures var q := HeadStep(env, Begins(env, p), start);
      q.headerCount == 0 && Skipping !in q.flags
  {
    GoingCall(env, Reset(p).(phase := HeadLine), MsgBegin);
    StartLineKeeps(env, Begins(env, p), start);
  }

  lemma {:induction false} CallAllKeeps(env: Env, p: Parser, events: seq<Event>)
    requires HooksGo(env) && forall i :: 0 <= i < |events| ==> !events[i].BodyPiece?
    ensures var q := CallAll(env, p, events); q.headerCount == p.headerCount && q.flags == p.flags
    decreases |events|
  {
    if events != [] {
      GoingCall(env, p, events[0]);
      CallAllKeeps(env, Call(env, p, events[0]), events[1..]);
    }
  }

  lemma {:induction false} TargetKeeps(env: Env, p: Parser, m: string, t: string)
    requires HooksGo(env) && t != []
    ensures var q := MethodAndTarget(env, p, m, t); q.headerCount == p.headerCount && q.flags == p.flags
  {
    GoingCall(env, p, MethodIs(m));
    var p1 := Call(env, p, MethodIs(m));
    var own := t[0] == '/' || t == "*";
    var u := if own then BadUri else env.uri(t, p1.method_ == "CONNECT");
    NoBodyPieces(t, u);
    hide CallAll, TargetEvents, TargetScheme, HooksGo;
    CallAllKeeps(env, p1.(scheme := TargetScheme(env, t, u)), TargetEvents(t, u));
  }

  lemma {:induction false} RequestKeeps(env: Env, p: Parser, line: string)
    requires HooksGo(env)
    ensures var q := RequestLine(env, p, line); q.headerCount == p.headerCount && q.flags == p.flags
  {
    hide MethodAndTarget, NextToken, Version, MethodName, HooksGo;
    var (m, line1) := NextToken(line);
    var (t, line2) := NextToken(line1);
    var (v, line3) := NextToken(line2);
    if t != "" && Version(v).Some? {
      var (major, minor) := Version(v).value;
      TargetKeeps(env, p.(method_ := MethodName(m), major := major, minor := minor), m, t);
    }
  }

  lemma {:induction false} StatusKeeps(p: Parser, line: string)
    ensures var q := StatusLine(p, line); q.headerCount == p.headerCount && q.flags == p.flags
  {
    hide Version, Digits, Decimal;
  }

  lemma {:induction false} StartLineKeeps(env: Env, p: Parser, line: string)
    requires HooksGo(env) && p.phase.HeadLine?
    ensures var q := HeadStep(env, p, line); q.headerCount == p.headerCount && q.flags == p.flags
  {
    hide RequestLine, StatusLine, Call;
    RequestKeeps(env, p, line);
    StatusKeeps(p, line);
    var p1 := if env.kind.Request? then RequestLine(env, p, line) else StatusLine(p, line);
    GoingCall(env, p1.(phase := Headers), HdrsBegin);
  }

  /** With hooks that go, nothing in a head asks to skip the body. */
  lemma {:induction false} FieldDoesNotSkip(env: Env, p: Parser, line: string)
    requires HooksGo(env) && p.phase.Headers? && line != "" && Skipping !in p.flags
    ensures Skipping !in HeadStep(env, p, line).flags
  {
    hide NoteField, SplitField, Call;
    if SplitField(line).Some? {
      var (name, value) := SplitField(line).value;
      var q := p.(headerCount := p.headerCount + 1);
      GoingCall(env, q, HdrKey(name));
      NoteDoesNotSkip(env, Call(env, q, HdrKey(name)), name, value);
      GoingCall(env, NoteField(env, Call(env, q, HdrKey(name)), name, value), HdrVal(value));
    }
  }

  lemma {:induction false} NoteDoesNotSkip(env: Env, p: Parser, name: string, value: string)
    requires HooksGo(env) && Skipping !in p.flags
    ensures Skipping !in NoteField(env, p, name, value).flags
  {
    hide NoteTokens, NoteLengths, NoteCodings;
    GoingCall(env, p.(flags := p.flags + {HaveHost}), Hostname(value));
    G.NoteTokensFrame(p.flags, TokensOf(env, value));
    G.NoteCodingsFrame(p.flags + {HaveCoding}, CodingsOf(env, value));
    G.NoteLengthsFrame(p, env.elements(value));
  }

  lemma {:induction false} HeadDoesNotSkip(env: Env, head: LineTaker, p: Parser, lines: seq<string>)
    requires TakesFields(env, head) && FieldsDoNotSkip(head) && p.phase.Headers? && Skipping !in p.flags &&
      Reflects(p, NO_FACTS)
    requires forall i :: 0 <= i < |lines| ==> lines[i] != ""
    requires !TakeHead(head, p, lines).phase.Failed?
    ensures Skipping !in TakeHead(head, p, lines).flags
    decreases |lines|
  {
    if lines != [] {
      var init := lines[..|lines| - 1];
      hide Reflects, TakesFields;
      HeadDoesNotSkip(env, head, p, init);
      HeadReflects(env, head, p, init);
    }
  }

  /** Taking a field line never asks to skip the body. */
  ghost predicate FieldsDoNotSkip(head: LineTaker) {
    forall p: Parser, line: string ::
      p.phase.Headers? && line != "" && Skipping !in p.flags ==> Skipping !in head(p, line).flags
  }

  lemma {:induction false} OwnFieldsDoNotSkip(env: Env)
    requires HooksGo(env)
    ensures FieldsDoNotSkip(Head(env))
  {
    hide HeadStep, HooksGo;
    forall p: Parser, line: string | p.phase.Headers? && line != "" && Skipping !in p.flags
      ensures Skipping !in Head(env)(p, line).flags
    {
      FieldDoesNotSkip(env, p, line);
    }
  }

  lemma {:induction false} WholeHeadAccepted(env: Env, p: Parser, start: string, lines: seq<string>)
    requires HooksGo(env) && Room(env, |lines|) && forall i :: 0 <= i < |lines| ==> lines[i] != ""
    ensures var q := WholeHead(env, p, start, lines);
      && (!q.phase.Failed? <==>
           !HeadStep(env, Begins(env, p), start).phase.Failed? && AllFields(lines) && Acceptable(env, FieldsOf(lines)))
      && (!q.phase.Failed? ==> Skipping !in q.flags)
  {
    StartCounts(env, p, start);
    BeginsReflects(env, p);
    BeginsInHeadLine(env, p);
    StartLineReflects(env, Begins(env, p), start);
    HeadTakesFields(env);
    HeadAcceptsFields(env);
    OwnFieldsDoNotSkip(env);
    hide HeadStep, Reflects, Acceptable, HooksGo, TakesFields, AcceptsFields, FieldsDoNotSkip, Begins;
    var q := HeadStep(env, Begins(env, p), start);
    if !q.phase.Failed? {
      HeadAccepted(env, Head(env), q, lines);
      if !TakeHead(Head(env), q, lines).phase.Failed? {
        HeadDoesNotSkip(env, Head(env), q, lines);
      }
    }
  }

  /**
   Repeating fields, or ordering different fields differently, changes nothing: of two heads with one
   start line that say the same, both are accepted or neither is; and then both are refused at the
   blank line, or both told the same body and length.
   */
  lemma {:induction false} OrderDoesNotMatter(env: Env, p: Parser, start: string, lines: seq<string>,
      other: seq<string>)
    requires HooksGo(env) && Room(env, |lines|) && Room(env, |other|)
    requires AllFields(lines) && AllFields(other) && SaysTheSame(env, FieldsOf(lines), FieldsOf(other))
    ensures
      var q, r := WholeHead(env, p, start, lines), WholeHead(env, p, start, other);
      && (q.phase.Failed? <==> r.phase.Failed?)
      && (!q.phase.Failed? ==>
           && q.origContentLen == r.origContentLen
           && exists rule :: Framed(q, rule, HeadStep(env, q, "")) && Framed(r, rule, HeadStep(env, r, "")))
  {
    WholeHeadAccepted(env, p, start, lines);
    WholeHeadAccepted(env, p, start, other);
    SameIsMutual(env, FieldsOf(lines), FieldsOf(other));
    hide HeadStep, Acceptable, SaysTheSame, HooksGo, WholeHead, Framed, Begins;
    if Acceptable(env, FieldsOf(lines)) {
      SameAcceptable(env, FieldsOf(lines), FieldsOf(other));
    }
    if Acceptable(env, FieldsOf(other)) {
      SameAcceptable(env, FieldsOf(other), FieldsOf(lines));
    }
    if !WholeHead(env, p, start, lines).phase.Failed? {
      FramingIgnoresOrder(env, p, start, lines, other);
    }
  }

  lemma {:induction false} SameIsMutual(env: Env, a: seq<Field>, b: seq<Field>)
    requires SaysTheSame(env, a, b)
    ensures SaysTheSame(env, b, a)
  {
  }
}
