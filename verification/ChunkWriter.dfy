/**
 The chunked reply writer of evhtp.c, and the parser's chunk reader as its inverse (section 7.1 of
 RFC 9112).
 */
module ChunkWriter {
  import opened Text
  import opened Numbers
  import I = Incremental

  const CRLF: string := "\r\n"

  /** An `unsigned` is 32 bits wide. */
  const UNSIGNED: nat := 0x1_0000_0000

  function HexDigitChar(d: nat): (c: char)
    requires d < 16
    ensures HexValue(c) == d && c != '\n' && c != '\r'
  {
    if d < 10 then ('0' as int + d) as char else ('a' as int + d - 10) as char
  }

  /** printf's %x. */
  function Hex(n: nat): (s: string)
    ensures s != [] && HexDigits(s) && Hexadecimal(s) == n && '\n' !in s
  {
    if n < 16 then [HexDigitChar(n)] else
    var s := Hex(n / 16) + [HexDigitChar(n % 16)];
    assert s[..|s| - 1] == Hex(n / 16);
    s
  }

  lemma {:induction false} HexLength(n: nat, k: nat)
    requires k > 0 && n < Power16(k)
    ensures |Hex(n)| <= k
  {
    if n >= 16 {
      HexLength(n / 16, k - 1);
    }
  }

  function Power16(k: nat): nat {
    if k == 0 then 1 else 16 * Power16(k - 1)
  }

  /** A size line: the length through an `unsigned` cast. */
  function SizeLine(n: nat): string {
    Hex(n % UNSIGNED) + CRLF
  }

  /** What one call of evhtp_send_reply_chunk writes; nothing for an empty buffer. */
  function ChunkBytes(b: string): string {
    if b == [] then [] else SizeLine(|b|) + b + CRLF
  }

  function AllChunks(bufs: seq<string>): string {
    if bufs == [] then [] else ChunkBytes(bufs[0]) + AllChunks(bufs[1..])
  }

  const LAST_CHUNK: string := "0\r\n\r\n"

  // ---------------------------------------------------------------------------------------
  // The head of a reply
  // ---------------------------------------------------------------------------------------

  type Header = (string, string)

  const TE_CHUNKED: Header := ("Transfer-Encoding", "chunked")
  const CONTENT_LENGTH: string := "Content-Length"
  const CONTENT_TYPE: string := "Content-Type"
  const CONNECTION: string := "Connection"
  const TRANSFER_ENCODING: string := "Transfer-Encoding"

  /** A byte with bit 0x20 set, which is how match_header_key makes letters lower case. */
  function Low(c: char): nat {
    var v := c as int;
    if v / 32 % 2 == 1 then v else v + 32
  }

  predicate KeyIs(h: Header, name: string) {
    |h.0| == |name| && forall i :: 0 <= i < |name| ==> Low(h.0[i]) == Low(name[i])
  }

  predicate HasField(headers: seq<Header>, name: string) {
    exists h :: h in headers && KeyIs(h, name)
  }

  /** A list without its first field of a name, if it has one. */
  function WithoutFirst(name: string, headers: seq<Header>): seq<Header>
    decreases |headers|
  {
    if headers == [] then []
    else if KeyIs(headers[0], name) then headers[1..] else [headers[0]] + WithoutFirst(name, headers[1..])
  }

  lemma {:induction false} FirstIs(name: string, headers: seq<Header>, i: nat)
    requires i <= |headers| && (forall j :: 0 <= j < i ==> !KeyIs(headers[j], name))
    requires i < |headers| ==> KeyIs(headers[i], name)
    ensures WithoutFirst(name, headers) == if i < |headers| then headers[..i] + headers[i + 1..] else headers
    ensures HasField(headers, name) <==> i < |headers|
  {
    hide KeyIs;
    if i < |headers| {
      assert headers[i] in headers;
    }
    if i > 0 {
      FirstIs(name, headers[1..], i - 1);
      assert i < |headers| ==>
        headers[..i] == [headers[0]] + headers[1..][..i - 1] && headers[1..][i..] == headers[i + 1..];
    }
  }

  /** kvs_find_kv_n: where the first field of a name is, or the length. */
  method FindField(headers: seq<Header>, name: string) returns (i: nat)
    ensures i <= |headers| && (forall j :: 0 <= j < i ==> !KeyIs(headers[j], name))
    ensures i < |headers| ==> KeyIs(headers[i], name)
    ensures i < |headers| <==> HasField(headers, name)
  {
    i := 0;
    while i < |headers|
      invariant i <= |headers| && forall j :: 0 <= j < i ==> !KeyIs(headers[j], name)
    {
      var same := MatchKey(headers[i], name);
      if same {
        break;
      }
      i := i + 1;
    }
    FirstIs(name, headers, i);
  }

  /** match_header_key. */
  method MatchKey(h: Header, name: string) returns (same: bool)
    ensures same == KeyIs(h, name)
  {
    if |h.0| != |name| {
      return false;
    }
    for i := 0 to |name|
      invariant forall j :: 0 <= j < i ==> Low(h.0[j]) == Low(name[j])
    {
      if Low(h.0[i]) != Low(name[i]) {
        return false;
      }
    }
    same := true;
  }

  datatype Proto = Http10 | Http11 | OtherProto

  /** evhtp_response_needs_body. */
  predicate NeedsBody(code: nat, method_: string) {
    && code != 204 && code != 304 && (code < 100 || code >= 200)
    && method_ != "HEAD" && (method_ != "CONNECT" || code != 200)
  }

  /** What a reply is sent with besides its fields: the request's protocol, and what its parser found. */
  datatype Terms = Terms(proto: Proto, keepAlive: bool, multipart: bool, major: nat, minor: nat)

  /** The fields a reply goes out with: those it has, and what htp__create_reply_ adds to them. */
  function ReplyFields(t: Terms, chunked: bool, length: nat, headers: seq<Header>): seq<Header> {
    var h1 := if !t.multipart && length > 0 && !chunked && !HasField(headers, CONTENT_LENGTH)
      then headers + [(CONTENT_LENGTH, Numeral(length))] else headers;
    var h2 := WithConnection(t, chunked, h1);
    if HasField(headers, CONTENT_TYPE) then h2 else h2 + [(CONTENT_TYPE, "text/plain")]
  }

  function WithConnection(t: Terms, chunked: bool, headers: seq<Header>): seq<Header> {
    match t.proto
    case Http11 =>
      var h := if t.keepAlive then headers else headers + [("Connection", "close")];
      if HasField(h, CONTENT_LENGTH) || chunked then h else h + [(CONTENT_LENGTH, "0")]
    case Http10 => if t.keepAlive then headers + [("Connection", "keep-alive")] else headers
    case OtherProto => headers
  }

  /** The version a reply names: a request without one known is answered as HTTP/1.0. */
  function VersionText(t: Terms): string
    requires t.major < 10 && t.minor < 10
  {
    if t.proto.OtherProto? then "HTTP/1.0" else "HTTP/" + [DigitChar(t.major), '.', DigitChar(t.minor)]
  }

  function StatusText(t: Terms, code: nat, reason: string): string
    requires t.major < 10 && t.minor < 10
  {
    VersionText(t) + " " + Numeral(code) + " " + reason
  }

  function FieldText(h: Header): string {
    h.0 + ": " + h.1
  }

  function FieldTexts(headers: seq<Header>): seq<string> {
    seq(|headers|, i requires 0 <= i < |headers| => FieldText(headers[i]))
  }

  /** Lines, each with its CRLF. */
  function Render(lines: seq<string>): string
    decreases |lines|
  {
    if lines == [] then "" else Render(lines[..|lines| - 1]) + lines[|lines| - 1] + CRLF
  }

  /** The head as it is sent: the status line, the fields and a blank line. */
  function HeadText(t: Terms, code: nat, reason: string, headers: seq<Header>): string
    requires t.major < 10 && t.minor < 10
  {
    Render([StatusText(t, code, reason)] + FieldTexts(headers) + [""])
  }

  lemma {:induction false} RenderSnoc(lines: seq<string>, line: string)
    ensures Render(lines + [line]) == Render(lines) + line + CRLF
  {
    assert (lines + [line])[..|lines|] == lines;
  }

  /** The fields of a chunked reply, before htp__create_reply_ adds to them. */
  function ChunkedFields(headers: seq<Header>): seq<Header> {
    WithoutFirst(CONTENT_LENGTH, headers) + [TE_CHUNKED]
  }

  // ---------------------------------------------------------------------------------------
  // What the fields of a reply say
  // ---------------------------------------------------------------------------------------

  /** The fields of one name, in their order. */
  function Named(headers: seq<Header>, name: string): seq<Header> {
    if headers == [] then []
    else
      var h := headers[|headers| - 1];
      Named(headers[..|headers| - 1], name) + (if KeyIs(h, name) then [h] else [])
  }

  lemma {:induction false} NamedSnoc(headers: seq<Header>, h: Header, name: string)
    ensures Named(headers + [h], name) == Named(headers, name) + (if KeyIs(h, name) then [h] else [])
  {
    assert (headers + [h])[..|headers|] == headers;
  }

  lemma {:induction false} NamedJoin(a: seq<Header>, b: seq<Header>, name: string)
    ensures Named(a + b, name) == Named(a, name) + Named(b, name)
    decreases |b|
  {
    hide KeyIs;
    if b == [] {
      assert a + b == a;
    } else {
      var init, h := b[..|b| - 1], b[|b| - 1];
      assert a + b == (a + init) + [h] && b == init + [h];
      NamedSnoc(a + init, h, name);
      NamedSnoc(init, h, name);
      NamedJoin(a, init, name);
    }
  }

  lemma {:induction false} NamedOne(h: Header, name: string)
    ensures Named([h], name) == if KeyIs(h, name) then [h] else []
  {
    NamedSnoc([], h, name);
    assert [] + [h] == [h];
  }

  lemma {:induction false} NamedIffHas(headers: seq<Header>, name: string)
    ensures HasField(headers, name) <==> Named(headers, name) != []
    decreases |headers|
  {
    hide KeyIs;
    if headers != [] {
      var init, h := headers[..|headers| - 1], headers[|headers| - 1];
      NamedIffHas(init, name);
      assert headers == init + [h];
      assert forall i :: 0 <= i < |init| ==> headers[i] == init[i];
    }
  }

  /** Taking out the first field of a name takes it from the fields of that name, and no other. */
  lemma {:induction false} NamedWithout(headers: seq<Header>, name: string, other: string)
    ensures var kept := WithoutFirst(name, headers);
      && Named(kept, name) == (if Named(headers, name) == [] then [] else Named(headers, name)[1..])
      && (|name| != |other| ==> Named(kept, other) == Named(headers, other))
    decreases |headers|
  {
    if headers != [] {
      var h, rest := headers[0], headers[1..];
      assert |name| != |other| ==> !(KeyIs(h, name) && KeyIs(h, other));
      hide KeyIs;
      assert headers == [h] + rest;
      NamedJoin([h], rest, name);
      NamedJoin([h], rest, other);
      NamedOne(h, name);
      NamedOne(h, other);
      if !KeyIs(h, name) {
        NamedWithout(rest, name, other);
        NamedJoin([h], WithoutFirst(name, rest), name);
        NamedJoin([h], WithoutFirst(name, rest), other);
      }
    }
  }

  /** The fields a reply gains: its length, what becomes of the connection, and a type. */
  function LengthGained(t: Terms, chunked: bool, length: nat, headers: seq<Header>): seq<Header> {
    if chunked || HasField(headers, CONTENT_LENGTH) then []
    else if !t.multipart && length > 0 then [(CONTENT_LENGTH, Numeral(length))]
    else if t.proto.Http11? then [(CONTENT_LENGTH, "0")]
    else []
  }

  function ConnectionGained(t: Terms): seq<Header> {
    if t.proto.Http11? && !t.keepAlive then [("Connection", "close")]
    else if t.proto.Http10? && t.keepAlive then [("Connection", "keep-alive")]
    else []
  }

  function TypeGained(headers: seq<Header>): seq<Header> {
    if HasField(headers, CONTENT_TYPE) then [] else [(CONTENT_TYPE, "text/plain")]
  }

  /** A reply keeps all its fields and gains these, the connection's before or after the length, and no others. */
  lemma {:induction false} FieldsGained(t: Terms, chunked: bool, length: nat, headers: seq<Header>)
    ensures var sent := ReplyFields(t, chunked, length, headers);
      var l, c, y := LengthGained(t, chunked, length, headers), ConnectionGained(t), TypeGained(headers);
      sent == headers + l + c + y || sent == headers + c + l + y
  {
    var l, c := LengthGained(t, chunked, length, headers), ConnectionGained(t);
    assert KeyIs((CONTENT_LENGTH, Numeral(length)), CONTENT_LENGTH);
    NotLength(headers, "close");
    NotLength(headers + [(CONTENT_LENGTH, Numeral(length))], "close");
    HasLast(headers, (CONTENT_LENGTH, Numeral(length)));
    hide HasField, KeyIs, Numeral;
    assert forall a: seq<Header> :: a + [] == a;
  }

  lemma {:induction false} NotLength(headers: seq<Header>, value: string)
    ensures HasField(headers + [("Connection", value)], CONTENT_LENGTH) <==> HasField(headers, CONTENT_LENGTH)
  {
    NamedIffHas(headers, CONTENT_LENGTH);
    NamedIffHas(headers + [("Connection", value)], CONTENT_LENGTH);
    NamedSnoc(headers, ("Connection", value), CONTENT_LENGTH);
  }

  lemma {:induction false} HasLast(headers: seq<Header>, h: Header)
    requires KeyIs(h, CONTENT_LENGTH)
    ensures HasField(headers + [h], CONTENT_LENGTH)
  {
    assert (headers + [h])[|headers|] == h;
  }

  /** What a reply says of one thing is what it was given to say and what it gained. */
  lemma {:induction false} NamedSent(t: Terms, chunked: bool, length: nat, headers: seq<Header>, name: string)
    requires name == CONTENT_LENGTH || name == CONNECTION || name == CONTENT_TYPE || name == TRANSFER_ENCODING
    ensures Named(ReplyFields(t, chunked, length, headers), name) == Named(headers, name) +
      (if name == CONTENT_LENGTH then LengthGained(t, chunked, length, headers)
       else if name == CONNECTION then ConnectionGained(t)
       else if name == CONTENT_TYPE then TypeGained(headers)
       else [])
  {
    var l, c, y := LengthGained(t, chunked, length, headers), ConnectionGained(t), TypeGained(headers);
    FieldsGained(t, chunked, length, headers);
    GainedNames(t, chunked, length, headers, name);
    hide Named, LengthGained, ConnectionGained, TypeGained, ReplyFields;
    NamedFour(headers, l, c, y, name);
    NamedFour(headers, c, l, y, name);
    OneOfThree(Named(headers, name), l, c, y);
  }

  lemma {:induction false} NamedFour(a: seq<Header>, b: seq<Header>, c: seq<Header>, d: seq<Header>, name: string)
    ensures Named(a + b + c + d, name) == Named(a, name) + Named(b, name) + Named(c, name) + Named(d, name)
  {
    hide Named;
    NamedJoin(a + b + c, d, name);
    NamedJoin(a + b, c, name);
    NamedJoin(a, b, name);
  }

  lemma {:induction false} OneOfThree(n: seq<Header>, l: seq<Header>, c: seq<Header>, y: seq<Header>)
    ensures n + l + [] + [] == n + l && n + [] + l + [] == n + l
    ensures n + c + [] + [] == n + c && n + [] + c + [] == n + c
    ensures n + [] + [] + y == n + y && n + [] + [] + [] == n + []
  {
  }

  lemma {:induction false} GainedNames(t: Terms, chunked: bool, length: nat, headers: seq<Header>, name: string)
    requires name == CONTENT_LENGTH || name == CONNECTION || name == CONTENT_TYPE || name == TRANSFER_ENCODING
    ensures var l := LengthGained(t, chunked, length, headers);
      Named(l, name) == if name == CONTENT_LENGTH then l else []
    ensures var c := ConnectionGained(t); Named(c, name) == if name == CONNECTION then c else []
    ensures var y := TypeGained(headers); Named(y, name) == if name == CONTENT_TYPE then y else []
  {
    hide HasField, Numeral, KeyIs, Named;
    NamedNone(name);
    NameIs((CONTENT_LENGTH, Numeral(length)), name);
    NameIs((CONTENT_LENGTH, "0"), name);
    NameIs((CONNECTION, "close"), name);
    NameIs((CONNECTION, "keep-alive"), name);
    NameIs((CONTENT_TYPE, "text/plain"), name);
    NamedOne((CONTENT_LENGTH, Numeral(length)), name);
    NamedOne((CONTENT_LENGTH, "0"), name);
    NamedOne((CONNECTION, "close"), name);
    NamedOne((CONNECTION, "keep-alive"), name);
    NamedOne((CONTENT_TYPE, "text/plain"), name);
  }

  lemma {:induction false} NamedNone(name: string)
    ensures Named([], name) == []
  {
  }

  /** The names replies use are told apart by their lengths. */
  lemma {:induction false} NameIs(h: Header, name: string)
    requires h.0 == CONTENT_LENGTH || h.0 == CONNECTION || h.0 == CONTENT_TYPE
    requires name == CONTENT_LENGTH || name == CONNECTION || name == CONTENT_TYPE || name == TRANSFER_ENCODING
    ensures KeyIs(h, name) <==> h.0 == name
  {
  }

  /** The fields of a chunked reply, and of one that is not, name these codings. */
  lemma {:induction false} CodingsSent(t: Terms, chunked: bool, length: nat, headers: seq<Header>)
    ensures
      var given := if chunked then ChunkedFields(headers) else headers;
      Named(ReplyFields(t, chunked, length, given), TRANSFER_ENCODING) ==
        Named(headers, TRANSFER_ENCODING) + (if chunked then [TE_CHUNKED] else [])
  {
    var given := if chunked then ChunkedFields(headers) else headers;
    NamedSent(t, chunked, length, given, TRANSFER_ENCODING);
    NamedWithout(headers, CONTENT_LENGTH, TRANSFER_ENCODING);
    NamedSnoc(WithoutFirst(CONTENT_LENGTH, headers), TE_CHUNKED, TRANSFER_ENCODING);
    assert KeyIs(TE_CHUNKED, TRANSFER_ENCODING);
    hide Named, ReplyFields, WithoutFirst;
    var n := Named(given, TRANSFER_ENCODING);
    assert n + [] == n;
  }

  // ---------------------------------------------------------------------------------------
  // The reply
  // ---------------------------------------------------------------------------------------

  /** The reply side of a request: the flag, the request's own buffer and the connection's output. */
  class Reply {
    const terms: Terms
    var chunked: bool
    var finished: bool
    var headersOut: seq<Header>
    var bufferOut: string
    var output: string

    constructor (terms: Terms, headers: seq<Header>, body: string)
      ensures this.terms == terms
      ensures !chunked && !finished && headersOut == headers && bufferOut == body && output == []
    {
      this.terms := terms;
      chunked, finished, headersOut, bufferOut, output := false, false, headers, body, [];
    }

    /** evhtp_send_reply_chunk_start; `method_` is the method that is replied to. */
    method ChunkStart(code: nat, method_: string, reason: string)
      requires terms.major < 10 && terms.minor < 10
      modifies this
      ensures chunked <==>
        && (terms.proto == Http10 || terms.proto == Http11)
        && !(method_ == "HEAD" || 100 <= code <= 199 || code == 204 || code == 304 ||
             (method_ == "CONNECT" && code == 200))
      ensures Named(headersOut, TRANSFER_ENCODING) ==
        Named(old(headersOut), TRANSFER_ENCODING) + (if chunked then [TE_CHUNKED] else [])
      ensures bufferOut == [] && finished == old(finished)
      ensures headersOut == ReplyFields(terms, chunked, |old(bufferOut)|,
                                        if chunked then ChunkedFields(old(headersOut)) else old(headersOut))
      ensures output == old(output) + HeadText(terms, code, reason, headersOut) +
                        (if chunked then ChunkBytes(old(bufferOut)) else old(bufferOut))
    {
      hide Render, WithoutFirst, HasField, Numeral, StatusText, Named, ReplyFields, HeadText;
      chunked := false;
      if NeedsBody(code, method_) && (terms.proto == Http11 || terms.proto == Http10) {
        RemoveLength();
        chunked := true;
      }
      if chunked {
        headersOut := headersOut + [TE_CHUNKED];
        if |bufferOut| > 0 {
          bufferOut := SizeLine(|bufferOut|) + bufferOut;
          bufferOut := bufferOut + CRLF;
        }
        LengthUnused(terms, |bufferOut|, headersOut);
        LengthUnused(terms, |old(bufferOut)|, headersOut);
      }
      AddFields();
      var head := WriteHead(code, reason);
      output := output + head + bufferOut;
      bufferOut := [];
      CodingsSent(terms, chunked, |old(bufferOut)|, old(headersOut));
    }

    /** evhtp_send_reply: head and body at once. */
    method SendReply(code: nat, reason: string)
      requires terms.major < 10 && terms.minor < 10
      modifies this
      ensures chunked == old(chunked) && finished && bufferOut == []
      ensures headersOut == ReplyFields(terms, chunked, |old(bufferOut)|, old(headersOut))
      ensures output == old(output) + HeadText(terms, code, reason, headersOut) + old(bufferOut)
    {
      hide Render, HasField, Numeral, StatusText;
      finished := true;
      AddFields();
      var head := WriteHead(code, reason);
      output := output + head + bufferOut;
      bufferOut := [];
    }

    /** evhtp_headers_find_header_n and evhtp_kv_rm_and_free: the first Content-Length field goes, if there is one. */
    method RemoveLength()
      modifies this`headersOut
      ensures headersOut == WithoutFirst(CONTENT_LENGTH, old(headersOut))
    {
      var i := FindField(headersOut, CONTENT_LENGTH);
      FirstIs(CONTENT_LENGTH, headersOut, i);
      if i < |headersOut| {
        headersOut := headersOut[..i] + headersOut[i + 1..];
      }
    }

    /** The fields htp__create_reply_ adds. */
    method AddFields()
      modifies this`headersOut
      ensures headersOut == ReplyFields(terms, chunked, |bufferOut|, old(headersOut))
    {
      hide HasField, Numeral;
      var hasType := FindField(headersOut, CONTENT_TYPE);
      var typed := hasType < |headersOut|;
      if !terms.multipart && |bufferOut| > 0 && !chunked {
        var i := FindField(headersOut, CONTENT_LENGTH);
        if i == |headersOut| {
          headersOut := headersOut + [(CONTENT_LENGTH, Numeral(|bufferOut|))];
        }
      }
      AddConnection();
      if !typed {
        headersOut := headersOut + [(CONTENT_TYPE, "text/plain")];
      }
    }

    /** Keep-alive or close, and an empty body's length, by the request's protocol. */
    method AddConnection()
      modifies this`headersOut
      ensures headersOut == WithConnection(terms, chunked, old(headersOut))
    {
      hide HasField;
      match terms.proto {
        case Http11 =>
          if !terms.keepAlive {
            headersOut := headersOut + [("Connection", "close")];
          }
          var i := FindField(headersOut, CONTENT_LENGTH);
          if i == |headersOut| && !chunked {
            headersOut := headersOut + [(CONTENT_LENGTH, "0")];
          }
        case Http10 =>
          if terms.keepAlive {
            headersOut := headersOut + [("Connection", "keep-alive")];
          }
        case OtherProto =>
      }
    }

    /** The status line, htp__create_headers_ on every field, and the blank line. */
    method WriteHead(code: nat, reason: string) returns (head: string)
      requires terms.major < 10 && terms.minor < 10
      ensures head == HeadText(terms, code, reason, headersOut)
    {
      hide StatusText, Render;
      var status := StatusText(terms, code, reason);
      ghost var lines := [status];
      head := status + CRLF;
      RenderSnoc([], status);
      assert [] + [status] == [status] && Render([]) == "" by {
        RenderNothing();
      }
      for i := 0 to |headersOut|
        invariant lines == [status] + FieldTexts(headersOut[..i]) && head == Render(lines)
      {
        var h := headersOut[i];
        head := head + (h.0 + ": " + h.1) + CRLF;
        RenderSnoc(lines, FieldText(h));
        assert FieldTexts(headersOut[..i + 1]) == FieldTexts(headersOut[..i]) + [FieldText(h)];
        lines := lines + [FieldText(h)];
      }
      assert headersOut[..|headersOut|] == headersOut;
      RenderSnoc(lines, "");
      head := head + "" + CRLF;
    }

    /** evhtp_send_reply_chunk. */
    method Chunk(buf: string)
      modifies this`output
      ensures output == old(output) + (if chunked then ChunkBytes(buf) else buf)
    {
      if |buf| == 0 {
        return;
      }
      if chunked {
        output := output + SizeLine(|buf|);
      }
      output := output + buf;
      if chunked {
        output := output + CRLF;
      }
    }

    /** evhtp_send_reply_chunk_end. */
    method ChunkEnd()
      modifies this`output, this`finished
      ensures finished && output == old(output) + (if chunked then LAST_CHUNK else [])
    {
      if chunked {
        output := output + LAST_CHUNK;
      }
      finished := true;
    }
  }

  lemma {:induction false} AllChunksSnoc(bufs: seq<string>, b: string)
    ensures AllChunks(bufs + [b]) == AllChunks(bufs) + ChunkBytes(b)
  {
    if bufs == [] {
      assert bufs + [b] == [b] && [b][1..] == [];
    } else {
      assert (bufs + [b])[1..] == bufs[1..] + [b];
      AllChunksSnoc(bufs[1..], b);
    }
  }

  lemma {:induction false} OneChunk(b: string)
    ensures AllChunks([b]) == ChunkBytes(b) && I.Concat([b]) == b
  {
    assert [b][1..] == [];
    AllChunksSnoc([], b);
    assert [] + [b] == [b] && AllChunks([]) == [];
  }

  lemma {:induction false} RenderNothing()
    ensures Render([]) == ""
  {
  }

  /** The fields a chunked reply is sent with. */
  function SentFields(t: Terms, headers: seq<Header>): seq<Header> {
    ReplyFields(t, true, 0, ChunkedFields(headers))
  }

  /** Buffers on the wire, as chunks or as they are. */
  function Onwards(chunked: bool, bufs: seq<string>): string {
    if chunked then AllChunks(bufs) else I.Concat(bufs)
  }

  lemma {:induction false} OnwardsSnoc(chunked: bool, bufs: seq<string>, b: string)
    ensures Onwards(chunked, bufs + [b]) == Onwards(chunked, bufs) + (if chunked then ChunkBytes(b) else b)
  {
    AllChunksSnoc(bufs, b);
    ConcatSnoc(bufs, b);
  }

  lemma {:induction false} ConcatSnoc(bufs: seq<string>, b: string)
    ensures I.Concat(bufs + [b]) == I.Concat(bufs) + b
    decreases |bufs|
  {
    if bufs == [] {
      assert [b][1..] == [] && bufs + [b] == [b];
    } else {
      assert (bufs + [b])[1..] == bufs[1..] + [b];
      ConcatSnoc(bufs[1..], b);
    }
  }

  /** A reply begun with chunk start: what is buffered, then the buffers, then the end, all behind the head. */
  method Send(terms: Terms, headers: seq<Header>, body: string, bufs: seq<string>, code: nat, method_: string,
              reason: string) returns (wire: string)
    requires terms.major < 10 && terms.minor < 10
    ensures
      var takesChunks :=
        && (terms.proto == Http10 || terms.proto == Http11)
        && !(method_ == "HEAD" || 100 <= code <= 199 || code == 204 || code == 304 ||
             (method_ == "CONNECT" && code == 200));
      wire == if takesChunks
        then HeadText(terms, code, reason, SentFields(terms, headers)) + AllChunks([body] + bufs) + LAST_CHUNK
        else HeadText(terms, code, reason, ReplyFields(terms, false, |body|, headers)) + I.Concat([body] + bufs)
  {
    hide AllChunks, ChunkBytes, HeadText, ReplyFields, I.Concat, Named;
    var r := new Reply(terms, headers, body);
    r.ChunkStart(code, method_, reason);
    LengthUnused(terms, |body|, ChunkedFields(headers));
    ghost var head := HeadText(terms, code, reason, r.headersOut);
    ghost var begun := r.chunked;
    OneChunk(body);
    ghost var sent := [body];
    for i := 0 to |bufs|
      invariant r.chunked == begun
      invariant r.output == head + Onwards(r.chunked, sent) && sent == [body] + bufs[..i]
    {
      r.Chunk(bufs[i]);
      OnwardsSnoc(r.chunked, sent, bufs[i]);
      sent := sent + [bufs[i]];
    }
    assert bufs[..|bufs|] == bufs;
    r.ChunkEnd();
    wire := r.output;
  }

  /** A chunked reply's fields do not depend on what is buffered. */
  lemma {:induction false} LengthUnused(t: Terms, length: nat, headers: seq<Header>)
    ensures ReplyFields(t, true, length, headers) == ReplyFields(t, true, 0, headers)
  {
  }
}
