/**
 Request lines and status lines as texts: which ones are accepted, what the parser takes from them, and what
 their hooks are told, with hooks that let the message go on.
 */
module StartLines {
  import opened Prelude
  import opened Text
  import opened ParserSpec

  // ---------------------------------------------------------------------------------------
  // Versions and status codes
  // ---------------------------------------------------------------------------------------

  const DIGITS: string := "0123456789"

  function VersionOf(major: nat, minor: nat): string
    requires major < 10 && minor < 10
  {
    "HTTP/" + [DIGITS[major], '.', DIGITS[minor]]
  }

  lemma {:induction false} DigitIs(c: char, d: nat)
    requires d < 10
    ensures Digit(c) && DigitValue(c) == d <==> c == DIGITS[d]
  {
  }

  /** A version is read as the two digits it is written with. */
  lemma {:induction false} VersionRead(major: nat, minor: nat)
    requires 0 < major < 10 && minor < 10
    ensures Version(VersionOf(major, minor)) == Some((major, minor))
  {
    var v := VersionOf(major, minor);
    assert v[..5] == "HTTP/";
    DigitIs(v[5], major);
    DigitIs(v[7], minor);
    DigitIs('0', 0);
  }

  /** And nothing else is read as a version. */
  lemma {:induction false} VersionIs(v: string)
    requires Version(v).Some?
    ensures var (major, minor) := Version(v).value; 0 < major < 10 && minor < 10 && v == VersionOf(major, minor)
  {
    var (major, minor) := Version(v).value;
    DigitIs(v[5], major);
    DigitIs(v[7], minor);
    DigitIs('0', 0);
    assert v == v[..5] + [v[5], v[6], v[7]];
  }

  function CodeOf(code: nat): string
    requires code <= 999
  {
    [DIGITS[code / 100], DIGITS[code / 10 % 10], DIGITS[code % 10]]
  }

  /** Three digits are the number they write. */
  lemma {:induction false} CodeRead(code: nat)
    requires code <= 999
    ensures Digits(CodeOf(code)) && Decimal(CodeOf(code)) == code
  {
    var a, b, c := code / 100, code / 10 % 10, code % 10;
    DigitIs(DIGITS[a], a);
    DigitIs(DIGITS[b], b);
    DigitIs(DIGITS[c], c);
    Whole(code);
    hide Decimal, DigitValue;
    var s := CodeOf(code);
    assert s[0] == DIGITS[a] && s[1] == DIGITS[b] && s[2] == DIGITS[c];
    ThreeDigits(s);
  }

  lemma {:induction false} Whole(code: nat)
    requires code <= 999
    ensures code / 100 * 100 + code / 10 % 10 * 10 + code % 10 == code
  {
  }

  lemma {:induction false} ThreeDigits(s: string)
    requires |s| == 3 && Digits(s)
    ensures Decimal(s) == DigitValue(s[0]) * 100 + DigitValue(s[1]) * 10 + DigitValue(s[2])
  {
    assert s[..2][..1] == s[..1] && s[..1][..0] == "";
    assert Decimal(s[..1]) == DigitValue(s[0]);
    assert Decimal(s[..2]) == DigitValue(s[0]) * 10 + DigitValue(s[1]);
  }

  lemma {:induction false} CodeIs(s: string)
    requires |s| == 3 && Digits(s)
    ensures Decimal(s) <= 999 && s == CodeOf(Decimal(s))
  {
    hide Decimal, DigitValue, CodeOf;
    ThreeDigits(s);
    DigitAt(s[0]);
    DigitAt(s[1]);
    DigitAt(s[2]);
    CodeOfPlaces(DigitValue(s[0]), DigitValue(s[1]), DigitValue(s[2]));
    assert s == [s[0], s[1], s[2]];
  }

  lemma {:induction false} DigitAt(c: char)
    requires Digit(c)
    ensures DigitValue(c) < 10 && c == DIGITS[DigitValue(c)]
  {
    DigitIs(c, DigitValue(c));
  }

  lemma {:induction false} CodeOfPlaces(a: nat, b: nat, c: nat)
    requires a < 10 && b < 10 && c < 10
    ensures a * 100 + b * 10 + c <= 999 && CodeOf(a * 100 + b * 10 + c) == [DIGITS[a], DIGITS[b], DIGITS[c]]
  {
    Places(a, b, c);
  }

  lemma {:induction false} Places(a: nat, b: nat, c: nat)
    requires a < 10 && b < 10 && c < 10
    ensures var code := a * 100 + b * 10 + c; code / 100 == a && code / 10 % 10 == b && code % 10 == c
  {
  }

  /** A status line: a version, a code and perhaps a reason. */
  predicate StatusWords(line: string, major: nat, minor: nat, code: nat) {
    && 0 < major < 10 && minor < 10 && 100 <= code <= 999
    && var start := VersionOf(major, minor) + " " + CodeOf(code);
       start <= line && (|line| == |start| || line[|start|] == ' ')
  }

  /** A line is accepted as a status line exactly if it is one, and then the parser has its version and code. */
  lemma {:induction false} StatusLineRead(p: Parser, line: string, major: nat, minor: nat, code: nat)
    requires StatusWords(line, major, minor, code)
    ensures StatusLine(p, line) == p.(major := major, minor := minor, status := code)
  {
    var start := VersionOf(major, minor) + " " + CodeOf(code);
    assert line[..12] == start;
    assert line[..8] == start[..8] == VersionOf(major, minor);
    assert line[8] == start[8] == ' ';
    assert line[9..12] == start[9..12] == CodeOf(code);
    VersionRead(major, minor);
    CodeRead(code);
    hide Version, VersionOf, CodeOf, Decimal, Digits;
  }

  lemma {:induction false} StatusLineIs(p: Parser, line: string)
    requires !p.phase.Failed? && !StatusLine(p, line).phase.Failed?
    ensures var q := StatusLine(p, line); StatusWords(line, q.major, q.minor, q.status)
  {
    var q := StatusLine(p, line);
    VersionIs(line[..8]);
    CodeIs(line[9..12]);
    hide Version, VersionOf, CodeOf, Decimal, Digits;
    assert line[..12] == line[..8] + [line[8]] + line[9..12];
    assert [line[8]] == " ";
  }

  // ---------------------------------------------------------------------------------------
  // Words
  // ---------------------------------------------------------------------------------------

  predicate Spaces(s: string) {
    forall i :: 0 <= i < |s| ==> s[i] == ' '
  }

  lemma {:induction false} SpacesSkipped(a: string, s: string)
    requires Spaces(a) && (s != "" ==> s[0] != ' ')
    ensures SkipSpaces(a + s) == s
    decreases |a|
  {
    if a == "" {
      assert a + s == s;
    } else {
      assert (a + s)[1..] == a[1..] + s;
      SpacesSkipped(a[1..], s);
    }
  }

  /** What is skipped is spaces. */
  lemma {:induction false} SkippedAre(s: string) returns (a: string)
    ensures Spaces(a) && s == a + SkipSpaces(s) && (SkipSpaces(s) != "" ==> SkipSpaces(s)[0] != ' ')
    decreases |s|
  {
    if s != "" && s[0] == ' ' {
      assert SkipSpaces(s) == SkipSpaces(s[1..]);
      hide SkipSpaces;
      var b := SkippedAre(s[1..]);
      a := " " + b;
      assert s == " " + s[1..];
      Joined3(" ", b, SkipSpaces(s));
    } else {
      a := "";
    }
  }

  /** A word between spaces is the next token. */
  lemma {:induction false} WordRead(a: string, word: string, b: string, rest: string)
    requires Spaces(a) && Spaces(b) && word != "" && ' ' !in word
    requires rest != "" ==> b != "" && rest[0] != ' '
    ensures NextToken(a + word + b + rest) == (word, rest)
  {
    var s := word + (b + rest);
    assert a + word + b + rest == a + s;
    assert s[0] == word[0] && word[0] in word;
    SpacesSkipped(a, s);
    assert forall i :: 0 <= i < |word| ==> s[i] == word[i] && word[i] in word;
    if b + rest != "" {
      assert b != "";
      assert s[|word|] == b[0] == ' ';
    }
    IndexOfUnique(s, ' ', |word|);
    assert s[..|word|] == word && s[|word|..] == b + rest;
    SpacesSkipped(b, rest);
  }

  /** And a token is such a word. */
  lemma {:induction false} TokenIs(s: string) returns (a: string, b: string)
    ensures var (word, rest) := NextToken(s);
      && Spaces(a) && Spaces(b) && ' ' !in word && s == a + word + b + rest
      && (rest != "" ==> rest[0] != ' ') && (rest != "" && word != "" ==> b != "") && (word == "" ==> rest == "")
  {
    hide SkipSpaces, IndexOf;
    a := SkippedAre(s);
    var t := SkipSpaces(s);
    var n := IndexOf(t, ' ');
    b := SkippedAre(t[n..]);
    WordEnds(t, n);
    Joined3(a, t[..n], t[n..]);
    Joined3(a + t[..n], b, SkipSpaces(t[n..]));
  }

  lemma {:induction false} WordEnds(t: string, n: nat)
    requires n == IndexOf(t, ' ') && (t != "" ==> t[0] != ' ')
    ensures t == t[..n] + t[n..] && ' ' !in t[..n] && (t[n..] != "" ==> t[n..][0] == ' ') && (n == 0 ==> t == "")
  {
    assert forall i :: 0 <= i < n ==> t[..n][i] == t[i];
  }

  lemma {:induction false} Joined3(a: string, b: string, c: string)
    ensures a + (b + c) == a + b + c
  {
  }

  /** A request line: three words, with spaces between them. */
  ghost predicate RequestWords(line: string, m: string, t: string, v: string) {
    && m != "" && t != "" && v != "" && ' ' !in m && ' ' !in t && ' ' !in v
    && exists a, b, c, d :: Spaces(a) && Spaces(b) && Spaces(c) && Spaces(d) && b != "" && c != "" &&
         line == a + m + (b + t + (c + v + d))
  }

  /** The three tokens of a line, and what is left. */
  function Tokens(line: string): (string, string, string, string) {
    var (m, line1) := NextToken(line);
    var (t, line2) := NextToken(line1);
    var (v, rest) := NextToken(line2);
    (m, t, v, rest)
  }

  lemma {:induction false} WordsAreTokens(line: string, m: string, t: string, v: string)
    requires RequestWords(line, m, t, v)
    ensures Tokens(line) == (m, t, v, "")
  {
    var a, b, c, d :| Spaces(a) && Spaces(b) && Spaces(c) && Spaces(d) && b != "" && c != "" &&
      line == a + m + (b + t + (c + v + d));
    hide NextToken, Spaces;
    FirstWord(a, m, b, t, c + v + d);
    FirstWord("", t, c, v, d);
    WordAlone("", v, d);
    assert "" + t + (c + v + d) == t + (c + v + d);
    assert "" + v + d == v + d;
  }

  lemma {:induction false} FirstWord(a: string, word: string, b: string, next: string, more: string)
    requires (a == "" || Spaces(a)) && Spaces(b) && b != "" && word != "" && ' ' !in word && next != "" && ' ' !in next
    ensures NextToken(a + word + (b + next + more)) == (word, next + more)
  {
    assert next[0] in next;
    WordRead(a, word, b, next + more);
    assert a + word + b + (next + more) == a + word + (b + next + more);
    hide NextToken;
  }

  lemma {:induction false} WordAlone(a: string, word: string, b: string)
    requires (a == "" || Spaces(a)) && Spaces(b) && word != "" && ' ' !in word
    ensures NextToken(a + word + b) == (word, "")
  {
    WordRead(a, word, b, "");
    assert a + word + b + "" == a + word + b;
  }

  lemma {:induction false} TokensAreWords(line: string)
    requires var (m, t, v, rest) := Tokens(line); v != "" && rest == ""
    ensures var (m, t, v, rest) := Tokens(line); RequestWords(line, m, t, v)
  {
    hide NextToken, Spaces;
    var (m, line1) := NextToken(line);
    var (t, line2) := NextToken(line1);
    var (v, rest) := NextToken(line2);
    var a, b := TokenIs(line);
    var b', c := TokenIs(line1);
    var c', d := TokenIs(line2);
    SecondStarts(b', t, c, line2);
    SecondStarts(c', v, d, rest);
    assert line == a + m + (b + t + (c + v + d)) by {
      assert v + d + "" == v + d;
    }
  }

  lemma {:induction false} SecondStarts(a: string, word: string, b: string, rest: string)
    requires Spaces(a) && word != "" && (a + word + b + rest != "" ==> (a + word + b + rest)[0] != ' ')
    ensures a == "" && a + word + b + rest == word + b + rest
  {
  }

  // ---------------------------------------------------------------------------------------
  // Targets
  // ---------------------------------------------------------------------------------------

  /** The schemes the parser knows. */
  predicate KnownScheme(env: Env, s: string) {
    env.equalsI(s, "http") || env.equalsI(s, "https") || env.equalsI(s, "ftp") || env.equalsI(s, "nfs")
  }

  /** A path, an asterisk, or what the URI parser takes, with a scheme that is known. */
  predicate GoodTarget(env: Env, m: string, t: string)
    requires t != ""
  {
    || t[0] == '/' || t == "*"
    || match env.uri(t, m == "CONNECT")
       case BadUri => false
       case Authority(_, _) => true
       case Absolute(scheme, _, _, _, _) => KnownScheme(env, scheme)
  }

  function PortTold(port: Option<string>): seq<Event> {
    match port case None => [] case Some(n) => [PortIs(n)]
  }

  /** What the hooks are told of a target: its path, what follows its first question mark, and all of it. */
  ghost predicate TargetTold(env: Env, m: string, t: string, told: seq<Event>)
    requires t != ""
  {
    if t[0] == '/' then
      || (told == [PathIs(t), UriIs(t)] && '?' !in t)
      || exists x, y :: told == [PathIs(x), ArgsAre(y), UriIs(t)] && t == x + "?" + y && '?' !in x
    else if t == "*" then told == [PathIs("*"), UriIs("*")]
    else match env.uri(t, m == "CONNECT")
      case BadUri => false
      case Authority(host, port) => told == [HostIs(host)] + PortTold(port) + [PathIs("/"), UriIs(t)]
      case Absolute(scheme, host, port, path, query) =>
        var path' := if path == "" then "/" else path;
        told == [SchemeIs(scheme), HostIs(host)] + PortTold(port) +
          (match query case None => [PathIs(path'), UriIs(t)] case Some(q) => [PathIs(path'), ArgsAre(q), UriIs(t)])
  }

  lemma {:induction false} TargetEventsTold(env: Env, m: string, t: string)
    requires t != "" && GoodTarget(env, m, t)
    ensures var own := t[0] == '/' || t == "*";
      TargetTold(env, m, t, TargetEvents(t, if own then BadUri else env.uri(t, m == "CONNECT")))
  {
    hide IndexOf;
    if t[0] == '/' {
      var n := IndexOf(t, '?');
      if n < |t| {
        var x, y := t[..n], t[n + 1..];
        assert t == x + "?" + y && '?' !in x;
        assert PathEvents(x, Some(y), t) == [PathIs(x), ArgsAre(y), UriIs(t)];
      } else {
        assert t[..n] == t;
        assert PathEvents(t, None, t) == [PathIs(t), UriIs(t)];
      }
    } else if t == "*" {
      assert PathEvents(t, None, t) == [PathIs("*"), UriIs("*")];
    } else {
      var u := env.uri(t, m == "CONNECT");
      UriTold(t, u);
    }
  }

  lemma {:induction false} UriTold(t: string, u: Uri)
    requires t != "" && t[0] != '/' && t != "*"
    ensures match u
      case BadUri => true
      case Authority(host, port) => TargetEvents(t, u) == [HostIs(host)] + PortTold(port) + [PathIs("/"), UriIs(t)]
      case Absolute(scheme, host, port, path, query) =>
        var path' := if path == "" then "/" else path;
        TargetEvents(t, u) == [SchemeIs(scheme), HostIs(host)] + PortTold(port) +
          (match query case None => [PathIs(path'), UriIs(t)] case Some(q) => [PathIs(path'), ArgsAre(q), UriIs(t)])
  {
  }

  /** Hooks that go are all told. */
  lemma {:induction false} GoingCalls(env: Env, p: Parser, events: seq<Event>)
    requires HooksGo(env) && !p.phase.Failed? && forall i :: 0 <= i < |events| ==> !events[i].BodyPiece?
    ensures CallAll(env, p, events) == p.(trace := p.trace + events)
    decreases |events|
  {
    if events == [] {
      assert p.trace + events == p.trace;
    } else {
      GoingCall(env, p, events[0]);
      hide Call, HooksGo;
      GoingCalls(env, p.(trace := p.trace + [events[0]]), events[1..]);
      assert p.trace + [events[0]] + events[1..] == p.trace + events;
    }
  }

  // ---------------------------------------------------------------------------------------
  // Request lines
  // ---------------------------------------------------------------------------------------

  lemma {:induction false} TokensRead(env: Env, p: Parser, line: string)
    ensures var (m, t, v, rest) := Tokens(line);
      RequestLine(env, p, line) == RequestParts(env, p, MethodName(m), m, t, v, rest)
  {
  }

  /** The scheme a target names. */
  ghost predicate SchemeTold(env: Env, m: string, t: string, s: Scheme)
    requires t != ""
  {
    var u := env.uri(t, m == "CONNECT");
    if t[0] == '/' || t == "*" || !u.Absolute? then s == NoScheme
    else if env.equalsI(u.scheme, "http") then s == Http
    else if env.equalsI(u.scheme, "https") then s == Https
    else if env.equalsI(u.scheme, "ftp") then s == Ftp
    else env.equalsI(u.scheme, "nfs") && s == Nfs
  }

  /**
   A request line of a known method, a good target and a version is taken: the parser has method, version and
   scheme, and the hooks were told the method and then the target, each with its own text.
   */
  lemma {:induction false} RequestLineRead(env: Env, p: Parser, line: string, m: string, t: string, major: nat,
                                           minor: nat)
    requires HooksGo(env) && !p.phase.Failed? && RequestIs(env, line, m, t, major, minor)
    ensures var q := RequestLine(env, p, line);
      exists told :: TargetTold(env, m, t, told) && SchemeTold(env, m, t, q.scheme) &&
        q == p.(method_ := m, major := major, minor := minor, scheme := q.scheme,
                trace := p.trace + [MethodIs(m)] + told)
  {
    WordsAreTokens(line, m, t, VersionOf(major, minor));
    TokensRead(env, p, line);
    VersionRead(major, minor);
    hide Tokens, RequestWords, VersionOf, Version, RequestLine;
    TargetRead(env, p.(method_ := m, major := major, minor := minor), m, t);
  }

  lemma {:induction false} TargetRead(env: Env, p: Parser, m: string, t: string)
    requires HooksGo(env) && !p.phase.Failed? && t != "" && p.method_ == m && GoodTarget(env, m, t)
    ensures var q := MethodAndTarget(env, p, m, t);
      exists told :: TargetTold(env, m, t, told) && SchemeTold(env, m, t, q.scheme) &&
        q == p.(scheme := q.scheme, trace := p.trace + [MethodIs(m)] + told)
  {
    var own := t[0] == '/' || t == "*";
    var u := if own then BadUri else env.uri(t, m == "CONNECT");
    var told := TargetEvents(t, u);
    var p1 := p.(trace := p.trace + [MethodIs(m)]);
    GoingCall(env, p, MethodIs(m));
    TargetEventsTold(env, m, t);
    NoBodyPieces(t, u);
    GoingCalls(env, p1.(scheme := TargetScheme(env, t, u)), told);
    hide Call, CallAll, TargetEvents, TargetTold, HooksGo;
    assert TargetTold(env, m, t, told);
  }

  /** A line that is a request line the parser takes. */
  ghost predicate RequestIs(env: Env, line: string, m: string, t: string, major: nat, minor: nat) {
    && 0 < major < 10 && minor < 10 && m in METHODS
    && RequestWords(line, m, t, VersionOf(major, minor)) && GoodTarget(env, m, t)
  }

  /** A line the parser accepts as a request line is one, and the parser has its version. */
  lemma {:induction false} RequestLineSays(env: Env, p: Parser, line: string) returns (m: string, t: string)
    requires !RequestLine(env, p, line).phase.Failed?
    ensures var q := RequestLine(env, p, line);
      t != "" && q.method_ == m && RequestIs(env, line, m, t, q.major, q.minor)
  {
    TokensRead(env, p, line);
    m, t := Tokens(line).0, Tokens(line).1;
    var v, rest := Tokens(line).2, Tokens(line).3;
    hide RequestLine;
    assert m in METHODS && t != "" && rest == "" && Version(v).Some?;
    VersionIs(v);
    var (major, minor) := Version(v).value;
    TokensAreWords(line);
    hide RequestWords, Tokens, Version, VersionOf;
    MethodFirst(env, p.(method_ := m, major := major, minor := minor), m, t);
  }

  lemma {:induction false} CallAllKeeps(env: Env, p: Parser, events: seq<Event>)
    ensures var q := CallAll(env, p, events); q.method_ == p.method_ && q.major == p.major && q.minor == p.minor
    decreases |events|
  {
    if events != [] {
      CallShape(env, p, events[0]);
      hide Call;
      CallAllKeeps(env, Call(env, p, events[0]), events[1..]);
    }
  }

  lemma {:induction false} MethodFirst(env: Env, p: Parser, m: string, t: string)
    requires t != "" && p.method_ == m && !MethodAndTarget(env, p, m, t).phase.Failed?
    ensures var q := MethodAndTarget(env, p, m, t);
      GoodTarget(env, m, t) && q.method_ == m && q.major == p.major && q.minor == p.minor
  {
    CallShape(env, p, MethodIs(m));
    hide Call, CallAll, TargetEvents, TargetScheme;
    var p1 := Call(env, p, MethodIs(m));
    var own := t[0] == '/' || t == "*";
    var u := if own then BadUri else env.uri(t, m == "CONNECT");
    CallAllKeeps(env, p1.(scheme := TargetScheme(env, t, u)), TargetEvents(t, u));
    SchemeIsKnown(env, t, u);
  }

  lemma {:induction false} SchemeIsKnown(env: Env, t: string, u: Uri)
    requires t != ""
    ensures !TargetScheme(env, t, u).UnknownScheme? && t[0] != '/' && t != "*" && u.Absolute? ==>
      KnownScheme(env, u.scheme)
  {
  }
}
