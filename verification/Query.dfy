/**
 The query string parser of evhtp.c: a machine that copies each character into a key or a value
 buffer of the query's length plus one. `Parse` is the machine on values, `ParseQuery` the same with
 the buffers and their indices; and the machine reads a query as its separators and first equals
 signs say, whatever the flags, when escapes are not looked at.
 */
module Query {
  import opened Prelude
  import opened Text

  datatype Flag = IgnoreHex | AllowEmptyVals | AllowNullVals | SemicolonSeparates

  type Flags = set<Flag>

  const LENIENT: Flags := {IgnoreHex, AllowEmptyVals, AllowNullVals, SemicolonSeparates}

  /** A key and its value; no value is the source's NULL. */
  datatype Kv = Kv(key: string, val: Option<string>)

  datatype Mode = InKey | InVal | KeyHex1 | KeyHex2 | ValHex1 | ValHex2

  /** What evhtp_kv_new copies of a buffer: the characters before the first NUL. */
  function UpToNul(s: string): (t: string)
    ensures t <= s && '\0' !in t && (|t| < |s| ==> s[|t|] == '\0')
  {
    s[..IndexOf(s, '\0')]
  }

  predicate HexChar(c: char) {
    'a' <= c <= 'f' || 'A' <= c <= 'F' || '0' <= c <= '9'
  }

  predicate Separates(flags: Flags, c: char) {
    c == '&' || (c == ';' && SemicolonSeparates in flags)
  }

  // ---------------------------------------------------------------------------------------
  // The machine
  // ---------------------------------------------------------------------------------------

  datatype Machine = Failed | At(mode: Mode, key: string, val: string, kvs: seq<Kv>)

  function KeyStep(flags: Flags, q: Machine, c: char): Machine
    requires q.At?
  {
    if c == '=' then q.(mode := InVal)
    else if c == '%' then q.(key := q.key + [c], mode := if IgnoreHex in flags then InKey else KeyHex1)
    else if Separates(flags, c) then
      if AllowNullVals !in flags then Failed else At(InKey, "", "", q.kvs + [Kv(UpToNul(q.key), None)])
    else q.(key := q.key + [c])
  }

  function ValStep(flags: Flags, q: Machine, c: char): Machine
    requires q.At?
  {
    if Separates(flags, c) then At(InKey, "", "", q.kvs + [Kv(UpToNul(q.key), Some(UpToNul(q.val)))])
    else if c == '%' then q.(val := q.val + [c], mode := if IgnoreHex in flags then InVal else ValHex1)
    else q.(val := q.val + [c])
  }

  /** One character of a query of `len`. */
  function Step(flags: Flags, len: nat, q: Machine, c: char): Machine {
    if q.Failed? then q
    else match q.mode
      case InKey => KeyStep(flags, q, c)
      case InVal => ValStep(flags, q, c)
      case KeyHex1 =>
        if HexChar(c) then q.(key := q.key + [c], mode := KeyHex2)
        else if |q.key| + 2 >= len then Failed
        else q.(key := q.key + [c], mode := InKey)
      case KeyHex2 => if HexChar(c) then q.(key := q.key + [c], mode := InKey) else Failed
      case ValHex1 =>
        if HexChar(c) then q.(val := q.val + [c], mode := ValHex2)
        else if |q.val| + 2 >= len then Failed
        else q.(val := q.val + [c], mode := InVal)
      case ValHex2 => if HexChar(c) then q.(val := q.val + [c], mode := InVal) else Failed
  }

  /** The machine from q on. */
  function Run(flags: Flags, len: nat, q: Machine, query: string): Machine
    decreases |query|
  {
    if query == "" then q else Run(flags, len, Step(flags, len, q, query[0]), query[1..])
  }

  /** What is left in the buffers at the end; a pending escape in a key counts as a value seen. */
  function Finish(flags: Flags, q: Machine): Option<seq<Kv>> {
    if q.Failed? then None
    else if q.key == "" then Some(q.kvs)
    else if q.val != "" then Some(q.kvs + [Kv(UpToNul(q.key), Some(UpToNul(q.val)))])
    else if !q.mode.InKey? then
      if AllowEmptyVals in flags then Some(q.kvs + [Kv(UpToNul(q.key), Some(""))]) else None
    else if AllowNullVals in flags then Some(q.kvs + [Kv(UpToNul(q.key), None)])
    else None
  }

  const BEGIN: Machine := At(InKey, "", "", [])

  const SIZE_MAX: nat := 0xFFFF_FFFF_FFFF_FFFF

  /** The length check at the top, in size_t arithmetic. */
  predicate TooLong(len: nat) {
    len > SIZE_MAX - (len + 2) % (SIZE_MAX + 1)
  }

  function Parse(flags: Flags, query: string): Option<seq<Kv>> {
    if TooLong(|query|) then None else Finish(flags, Run(flags, |query|, BEGIN, query))
  }

  // ---------------------------------------------------------------------------------------
  // What a query means
  // ---------------------------------------------------------------------------------------

  /** Where the first separator is, or the length. */
  function FirstSeparator(flags: Flags, query: string): nat
    ensures FirstSeparator(flags, query) <= |query|
  {
    if query == "" || Separates(flags, query[0]) then 0 else 1 + FirstSeparator(flags, query[1..])
  }

  /** The query cut at every separator. */
  function Pieces(flags: Flags, query: string): (ps: seq<string>)
    ensures ps != []
    decreases |query|
  {
    var n := FirstSeparator(flags, query);
    if n == |query| then [query] else [query[..n]] + Pieces(flags, query[n + 1..])
  }

  function KeyOf(piece: string): string {
    piece[..IndexOf(piece, '=')]
  }

  /** What follows the first equals sign; no equals sign, no value. */
  function ValOf(piece: string): Option<string> {
    var n := IndexOf(piece, '=');
    if n == |piece| then None else Some(piece[n + 1..])
  }

  function EntryOf(key: string, val: Option<string>): Kv {
    Kv(UpToNul(key), match val case None => None case Some(v) => Some(UpToNul(v)))
  }

  function Entry(piece: string): Kv {
    EntryOf(KeyOf(piece), ValOf(piece))
  }

  /** What a separator ends. */
  function InnerOf(flags: Flags, key: string, val: Option<string>): Option<seq<Kv>> {
    if val.None? && AllowNullVals !in flags then None else Some([EntryOf(key, val)])
  }

  /** What comes last: dropped when its key is empty, and refused if its value is not allowed. */
  function LastOf(flags: Flags, key: string, val: Option<string>): Option<seq<Kv>> {
    if key == "" then Some([])
    else if val.None? && AllowNullVals !in flags then None
    else if val == Some("") && AllowEmptyVals !in flags then None
    else Some([EntryOf(key, val)])
  }

  function Inner(flags: Flags, piece: string): Option<seq<Kv>> {
    InnerOf(flags, KeyOf(piece), ValOf(piece))
  }

  function Last(flags: Flags, piece: string): Option<seq<Kv>> {
    LastOf(flags, KeyOf(piece), ValOf(piece))
  }

  function Join(a: Option<seq<Kv>>, b: Option<seq<Kv>>): Option<seq<Kv>> {
    if a.None? || b.None? then None else Some(a.value + b.value)
  }

  /** All pieces, in order. */
  function Reading(flags: Flags, pieces: seq<string>): Option<seq<Kv>>
    requires pieces != []
    decreases |pieces|
  {
    if |pieces| == 1 then Last(flags, pieces[0])
    else Join(Inner(flags, pieces[0]), Reading(flags, pieces[1..]))
  }

  // ---------------------------------------------------------------------------------------
  // The machine reads what the query means
  // ---------------------------------------------------------------------------------------

  predicate NoSeparator(flags: Flags, s: string) {
    forall i :: 0 <= i < |s| ==> !Separates(flags, s[i])
  }

  lemma {:induction false} RunJoins(flags: Flags, len: nat, q: Machine, a: string, b: string)
    ensures Run(flags, len, q, a + b) == Run(flags, len, Run(flags, len, q, a), b)
    decreases |a|
  {
    if a == "" {
      assert a + b == b;
    } else {
      assert (a + b)[1..] == a[1..] + b;
      RunJoins(flags, len, Step(flags, len, q, a[0]), a[1..], b);
    }
  }

  lemma {:induction false} ReadVal(flags: Flags, len: nat, q: Machine, s: string)
    requires IgnoreHex in flags && q.At? && q.mode.InVal? && NoSeparator(flags, s)
    ensures Run(flags, len, q, s) == q.(val := q.val + s)
    decreases |s|
  {
    if s == "" {
      assert q.val + s == q.val;
    } else {
      ReadVal(flags, len, q.(val := q.val + [s[0]]), s[1..]);
      assert q.val + [s[0]] + s[1..] == q.val + s;
    }
  }

  lemma {:induction false} ReadKey(flags: Flags, len: nat, q: Machine, s: string)
    requires IgnoreHex in flags && q.At? && q.mode.InKey? && NoSeparator(flags, s) && '=' !in s
    ensures Run(flags, len, q, s) == q.(key := q.key + s)
    decreases |s|
  {
    if s == "" {
      assert q.key + s == q.key;
    } else {
      ReadKey(flags, len, q.(key := q.key + [s[0]]), s[1..]);
      assert q.key + [s[0]] + s[1..] == q.key + s;
    }
  }

  lemma {:induction false} FirstEquals(s: string)
    ensures var n := IndexOf(s, '=');
      n <= |s| && '=' !in s[..n] && (n < |s| ==> s == s[..n] + ['='] + s[n + 1..])
  {
    var n := IndexOf(s, '=');
    assert forall i :: 0 <= i < n ==> s[..n][i] == s[i];
  }

  /** A piece without separators fills the key, and the value if it has an equals sign. */
  lemma {:induction false} ReadPiece(flags: Flags, len: nat, kvs: seq<Kv>, piece: string)
    requires IgnoreHex in flags && NoSeparator(flags, piece)
    ensures Run(flags, len, At(InKey, "", "", kvs), piece) ==
      match ValOf(piece)
      case None => At(InKey, KeyOf(piece), "", kvs)
      case Some(v) => At(InVal, KeyOf(piece), v, kvs)
  {
    var n := IndexOf(piece, '=');
    FirstEquals(piece);
    var q := At(InKey, "", "", kvs);
    ReadKey(flags, len, q, piece[..n]);
    assert "" + piece[..n] == piece[..n];
    if n == |piece| {
      assert piece[..n] == piece;
    } else {
      var v := piece[n + 1..];
      RunJoins(flags, len, q, piece[..n] + ['='], v);
      RunJoins(flags, len, q, piece[..n], ['=']);
      var q1 := At(InKey, piece[..n], "", kvs);
      assert Run(flags, len, q1, ['=']) == q1.(mode := InVal) by {
        assert ['='][1..] == "";
      }
      ReadVal(flags, len, q1.(mode := InVal), v);
      assert "" + v == v;
    }
  }

  lemma {:induction false} FirstSeparatorIs(flags: Flags, query: string)
    ensures var n := FirstSeparator(flags, query);
      n <= |query| && NoSeparator(flags, query[..n]) && (n < |query| ==> Separates(flags, query[n]))
  {
    if query != "" && !Separates(flags, query[0]) {
      FirstSeparatorIs(flags, query[1..]);
      var n := FirstSeparator(flags, query);
      assert forall i :: 0 < i < n ==> query[..n][i] == query[1..][..n - 1][i - 1];
    }
  }

  lemma {:induction false} FailedStays(flags: Flags, len: nat, query: string)
    ensures Run(flags, len, Failed, query).Failed?
    decreases |query|
  {
    if query != "" {
      FailedStays(flags, len, query[1..]);
    }
  }

  /** From the start of a piece, the machine adds what the rest of the query reads as. */
  lemma {:induction false} ReadsAs(flags: Flags, len: nat, kvs: seq<Kv>, query: string)
    requires IgnoreHex in flags
    ensures Finish(flags, Run(flags, len, At(InKey, "", "", kvs), query)) ==
      Join(Some(kvs), Reading(flags, Pieces(flags, query)))
    decreases |query|
  {
    var n := FirstSeparator(flags, query);
    FirstSeparatorIs(flags, query);
    var piece := query[..n];
    ReadPiece(flags, len, kvs, piece);
    if n == |query| {
      assert piece == query;
      FinishPiece(flags, kvs, piece);
    } else {
      EndsPiece(flags, len, kvs, query, n);
    }
  }

  lemma {:induction false} FinishPiece(flags: Flags, kvs: seq<Kv>, piece: string)
    ensures Finish(flags, match ValOf(piece)
                          case None => At(InKey, KeyOf(piece), "", kvs)
                          case Some(v) => At(InVal, KeyOf(piece), v, kvs)) == Join(Some(kvs), Last(flags, piece))
  {
    assert kvs + [] == kvs;
    assert UpToNul("") == "";
  }

  lemma {:induction false} EndsPiece(flags: Flags, len: nat, kvs: seq<Kv>, query: string, n: nat)
    requires IgnoreHex in flags && n == FirstSeparator(flags, query) < |query| && Separates(flags, query[n])
    requires NoSeparator(flags, query[..n])
    ensures Finish(flags, Run(flags, len, At(InKey, "", "", kvs), query)) ==
      Join(Some(kvs), Reading(flags, Pieces(flags, query)))
    decreases |query|, 0
  {
    var piece, rest := query[..n], query[n + 1..];
    var q := At(InKey, "", "", kvs);
    ReadPiece(flags, len, kvs, piece);
    assert query == piece + query[n..];
    RunJoins(flags, len, q, piece, query[n..]);
    var q1 := Run(flags, len, q, piece);
    assert query[n..][0] == query[n] && query[n..][1..] == rest;
    var ps := Pieces(flags, query);
    assert ps[1..] == Pieces(flags, rest);
    var q2 := Step(flags, len, q1, query[n]);
    if q2.Failed? {
      FailedStays(flags, len, rest);
    } else {
      assert q2 == At(InKey, "", "", kvs + [Entry(piece)]);
      ReadsAs(flags, len, kvs + [Entry(piece)], rest);
      JoinJoins(kvs, Entry(piece), Reading(flags, ps[1..]));
    }
  }

  lemma {:induction false} JoinJoins(kvs: seq<Kv>, kv: Kv, r: Option<seq<Kv>>)
    ensures Join(Some(kvs + [kv]), r) == Join(Some(kvs), Join(Some([kv]), r))
  {
    if r.Some? {
      assert kvs + [kv] + r.value == kvs + ([kv] + r.value);
    }
  }

  /** Where escapes are not looked at, the machine reads what the query means, errors included. */
  lemma {:induction false} ParseIsReading(flags: Flags, query: string)
    requires IgnoreHex in flags && !TooLong(|query|)
    ensures Parse(flags, query) == Reading(flags, Pieces(flags, query))
  {
    ReadsAs(flags, |query|, [], query);
    var r := Reading(flags, Pieces(flags, query));
    if r.Some? {
      assert [] + r.value == r.value;
    }
  }

  // ---------------------------------------------------------------------------------------
  // The lenient flags
  // ---------------------------------------------------------------------------------------

  function Entries(pieces: seq<string>): seq<Kv> {
    seq(|pieces|, i requires 0 <= i < |pieces| => Entry(pieces[i]))
  }

  lemma {:induction false} LenientReading(flags: Flags, pieces: seq<string>)
    requires AllowNullVals in flags && AllowEmptyVals in flags && pieces != []
    ensures Reading(flags, pieces) ==
      Some(Entries(if KeyOf(pieces[|pieces| - 1]) == "" then pieces[..|pieces| - 1] else pieces))
    decreases |pieces|
  {
    if |pieces| == 1 {
      assert pieces[..0] == [] && Entries([]) == [] && Entries(pieces) == [Entry(pieces[0])];
    } else {
      LenientReading(flags, pieces[1..]);
      var last := pieces[|pieces| - 1];
      assert pieces[1..][|pieces| - 2] == last;
      var kept := if KeyOf(last) == "" then pieces[..|pieces| - 1] else pieces;
      assert kept[1..] == if KeyOf(last) == "" then pieces[1..][..|pieces| - 2] else pieces[1..];
      assert kept[0] == pieces[0];
      EntriesCons(kept);
      hide Entries, Entry, KeyOf, ValOf;
    }
  }

  lemma {:induction false} EntriesCons(pieces: seq<string>)
    requires pieces != []
    ensures Entries(pieces) == [Entry(pieces[0])] + Entries(pieces[1..])
  {
    hide Entry;
  }

  /**
   With the lenient flags the parser never fails: every piece gives an entry, and only a last piece
   with an empty key is dropped.
   */
  lemma {:induction false} LenientParse(query: string)
    requires !TooLong(|query|)
    ensures var ps := Pieces(LENIENT, query);
      Parse(LENIENT, query) == Some(Entries(if KeyOf(ps[|ps| - 1]) == "" then ps[..|ps| - 1] else ps))
  {
    ParseIsReading(LENIENT, query);
    LenientReading(LENIENT, Pieces(LENIENT, query));
  }

  /** The separators the query was cut at. */
  function Cuts(flags: Flags, query: string): string {
    if query == "" then "" else (if Separates(flags, query[0]) then [query[0]] else "") + Cuts(flags, query[1..])
  }

  lemma {:induction false} CutsAfter(flags: Flags, query: string, n: nat)
    requires n < |query| && NoSeparator(flags, query[..n]) && Separates(flags, query[n])
    ensures Cuts(flags, query) == [query[n]] + Cuts(flags, query[n + 1..])
  {
    if n > 0 {
      assert query[..n][0] == query[0];
      assert query[1..][..n - 1] == query[..n][1..];
      CutsAfter(flags, query[1..], n - 1);
      assert query[1..][n..] == query[n + 1..];
    }
  }

  lemma {:induction false} CutsNone(flags: Flags, query: string)
    requires NoSeparator(flags, query)
    ensures Cuts(flags, query) == ""
  {
    if query != "" {
      CutsNone(flags, query[1..]);
    }
  }

  /** The pieces have no separators, and with the separators between them they are the query. */
  lemma {:induction false} PiecesCutTheQuery(flags: Flags, query: string)
    ensures forall piece :: piece in Pieces(flags, query) ==> NoSeparator(flags, piece)
    ensures |Cuts(flags, query)| + 1 == |Pieces(flags, query)|
    ensures Glue(Pieces(flags, query), Cuts(flags, query)) == query
    decreases |query|
  {
    hide Separates, Cuts, NoSeparator, Glue, FirstSeparator;
    var n := FirstSeparator(flags, query);
    FirstSeparatorIs(flags, query);
    if n == |query| {
      assert query[..n] == query;
      CutsNone(flags, query);
      GlueOne(query);
    } else {
      CutsAfter(flags, query, n);
      var piece, rest := query[..n], query[n + 1..];
      PiecesCutTheQuery(flags, rest);
      assert Pieces(flags, query) == [piece] + Pieces(flags, rest);
      hide Pieces;
      GlueCons(piece, query[n], Pieces(flags, rest), Cuts(flags, rest));
      assert query == piece + [query[n]] + rest;
    }
  }

  lemma {:induction false} GlueOne(piece: string)
    ensures Glue([piece], "") == piece
  {
  }

  lemma {:induction false} GlueCons(piece: string, sep: char, pieces: seq<string>, seps: string)
    requires |seps| + 1 == |pieces|
    ensures Glue([piece] + pieces, [sep] + seps) == piece + [sep] + Glue(pieces, seps)
  {
    assert ([piece] + pieces)[1..] == pieces && ([sep] + seps)[1..] == seps;
  }

  function Glue(pieces: seq<string>, seps: string): string
    requires |seps| + 1 == |pieces|
    decreases |pieces|
  {
    if |pieces| == 1 then pieces[0] else pieces[0] + [seps[0]] + Glue(pieces[1..], seps[1..])
  }

  // ---------------------------------------------------------------------------------------
  // Escapes
  // ---------------------------------------------------------------------------------------

  /** Every percent sign is followed by two hexadecimal digits. */
  predicate WellEscaped(query: string)
    decreases |query|
  {
    if query == "" then true
    else if query[0] == '%' then |query| >= 3 && HexChar(query[1]) && HexChar(query[2]) && WellEscaped(query[3..])
    else WellEscaped(query[1..])
  }

  lemma {:induction false} RunThree(flags: Flags, len: nat, q: Machine, s: string)
    requires |s| >= 3
    ensures Run(flags, len, q, s) ==
      Run(flags, len, Step(flags, len, Step(flags, len, Step(flags, len, q, s[0]), s[1]), s[2]), s[3..])
  {
    var q1 := Step(flags, len, q, s[0]);
    var q2 := Step(flags, len, q1, s[1]);
    assert Run(flags, len, q, s) == Run(flags, len, q1, s[1..]);
    assert s[1..][0] == s[1] && s[1..][1..] == s[2..];
    assert Run(flags, len, q1, s[1..]) == Run(flags, len, q2, s[2..]);
    assert s[2..][0] == s[2] && s[2..][1..] == s[3..];
  }

  /** Looking at the escapes changes nothing where all of them are well formed. */
  lemma {:induction false} EscapesPass(flags: Flags, len: nat, q: Machine, query: string)
    requires IgnoreHex !in flags && WellEscaped(query) && (q.Failed? || q.mode.InKey? || q.mode.InVal?)
    ensures Run(flags, len, q, query) == Run(flags + {IgnoreHex}, len, q, query)
    decreases |query|
  {
    var loose := flags + {IgnoreHex};
    if q.Failed? {
      FailedStays(flags, len, query);
      FailedStays(loose, len, query);
      assert Run(flags, len, q, query) == Failed && Run(loose, len, q, query) == Failed;
    } else if query != "" {
      if query[0] == '%' {
        RunThree(flags, len, q, query);
        RunThree(loose, len, q, query);
        var q3 := Step(flags, len, Step(flags, len, Step(flags, len, q, query[0]), query[1]), query[2]);
        EscapesPass(flags, len, q3, query[3..]);
      } else {
        EscapesPass(flags, len, Step(flags, len, q, query[0]), query[1..]);
      }
    }
  }

  /** So a query whose escapes are well formed is read the same whether they are looked at or not. */
  lemma {:induction false} StrictReadsWellEscaped(flags: Flags, query: string)
    requires WellEscaped(query) && !TooLong(|query|)
    ensures Parse(flags, query) == Reading(flags + {IgnoreHex}, Pieces(flags + {IgnoreHex}, query))
  {
    ParseIsReading(flags + {IgnoreHex}, query);
    if IgnoreHex in flags {
      assert flags + {IgnoreHex} == flags;
    } else {
      EscapesPass(flags, |query|, BEGIN, query);
    }
  }

  /**
   The length check refuses the lengths whose double does not leave room for two more, except where
   adding two already wraps to nothing: of the two largest lengths it lets one through.
   */
  lemma {:induction false} TooLongIs(len: nat)
    requires len <= SIZE_MAX
    ensures TooLong(len) <==> len + len + 2 > SIZE_MAX && len + 1 != SIZE_MAX
  {
    if len + 2 <= SIZE_MAX {
      assert (len + 2) % (SIZE_MAX + 1) == len + 2;
    } else {
      assert (len + 2) % (SIZE_MAX + 1) == len + 1 - SIZE_MAX;
    }
  }

  // ---------------------------------------------------------------------------------------
  // The parser with its buffers
  // ---------------------------------------------------------------------------------------

  /** A buffer that holds s as a C string, with n the index of its NUL. */
  predicate Holds(buf: array<char>, n: nat, s: string)
    reads buf
  {
    n == |s| && n < buf.Length && buf[..n] == s && buf[n] == '\0'
  }

  /** buf[n++] = c; buf[n] = NUL. */
  method Put(buf: array<char>, n: nat, c: char, ghost s: string)
    requires Holds(buf, n, s) && n + 1 < buf.Length
    modifies buf
    ensures Holds(buf, n + 1, s + [c])
  {
    buf[n] := c;
    buf[n + 1] := '\0';
    assert buf[..n + 1] == buf[..n] + [c];
  }

  method Clear(buf: array<char>)
    requires buf.Length > 0
    modifies buf
    ensures Holds(buf, 0, "")
  {
    buf[0] := '\0';
  }

  /** What evhtp_kv_new does with a buffer: copy up to the NUL. */
  method Copy(buf: array<char>, ghost n: nat, ghost s: string) returns (copy: string)
    requires Holds(buf, n, s)
    ensures copy == UpToNul(s)
  {
    var i := 0;
    while buf[i] != '\0'
      invariant i <= n && forall j :: 0 <= j < i ==> s[j] != '\0'
      decreases n - i
    {
      assert buf[i] == buf[..n][i];
      i := i + 1;
    }
    assert i < n ==> buf[i] == buf[..n][i];
    IndexOfUnique(s, '\0', i);
    copy := buf[..i];
    assert copy == s[..i];
  }

  /** A pending escape's percent sign is the last character of its buffer. */
  predicate Pending(q: Machine) {
    && q.At?
    && (q.mode.KeyHex1? ==> q.key != "" && q.key[|q.key| - 1] == '%')
    && (q.mode.ValHex1? ==> q.val != "" && q.val[|q.val| - 1] == '%')
  }

  lemma {:induction false} PendingStays(flags: Flags, len: nat, q: Machine, c: char)
    requires Pending(q) && Step(flags, len, q, c).At?
    ensures Pending(Step(flags, len, q, c))
    ensures var q' := Step(flags, len, q, c); |q'.key| + |q'.val| <= |q.key| + |q.val| + 1
  {
  }

  /** The key state. */
  method TakeKey(flags: Flags, keyBuf: array<char>, valBuf: array<char>, keyIdx: nat, valIdx: nat, mode: Mode,
              kvs: seq<Kv>, c: char, ghost q: Machine)
    returns (ok: bool, keyIdx': nat, valIdx': nat, mode': Mode, kvs': seq<Kv>)
    requires keyBuf != valBuf && keyIdx + 1 < keyBuf.Length && valIdx + 1 < valBuf.Length
    requires Pending(q) && mode == q.mode == InKey && kvs == q.kvs && Holds(keyBuf, keyIdx, q.key) &&
      Holds(valBuf, valIdx, q.val)
    modifies keyBuf, valBuf
    ensures var q' := KeyStep(flags, q, c);
      ok <==> q'.At?
    ensures var q' := KeyStep(flags, q, c);
      q'.At? ==> mode' == q'.mode && kvs' == q'.kvs && Holds(keyBuf, keyIdx', q'.key) && Holds(valBuf, valIdx', q'.val)
  {
    ok, keyIdx', valIdx', mode', kvs' := true, keyIdx, valIdx, mode, kvs;
    if c == '=' {
      mode' := InVal;
    } else if c == '%' {
      Put(keyBuf, keyIdx, c, q.key);
      keyIdx' := keyIdx + 1;
      if IgnoreHex !in flags {
        mode' := KeyHex1;
      }
    } else if c == '&' || (c == ';' && SemicolonSeparates in flags) {
      if AllowNullVals !in flags {
        ok := false;
        return;
      }
      var key := Copy(keyBuf, keyIdx, q.key);
      kvs' := kvs + [Kv(key, None)];
      keyIdx', valIdx' := 0, 0;
      Clear(keyBuf);
      Clear(valBuf);
    } else {
      Put(keyBuf, keyIdx, c, q.key);
      keyIdx' := keyIdx + 1;
    }
  }

  /** The value state. */
  method TakeVal(flags: Flags, keyBuf: array<char>, valBuf: array<char>, keyIdx: nat, valIdx: nat, mode: Mode,
              kvs: seq<Kv>, c: char, ghost q: Machine)
    returns (ok: bool, keyIdx': nat, valIdx': nat, mode': Mode, kvs': seq<Kv>)
    requires keyBuf != valBuf && keyIdx + 1 < keyBuf.Length && valIdx + 1 < valBuf.Length
    requires Pending(q) && mode == q.mode == InVal && kvs == q.kvs && Holds(keyBuf, keyIdx, q.key) &&
      Holds(valBuf, valIdx, q.val)
    modifies keyBuf, valBuf
    ensures var q' := ValStep(flags, q, c);
      ok <==> q'.At?
    ensures var q' := ValStep(flags, q, c);
      q'.At? ==> mode' == q'.mode && kvs' == q'.kvs && Holds(keyBuf, keyIdx', q'.key) && Holds(valBuf, valIdx', q'.val)
  {
    ok, keyIdx', valIdx', mode', kvs' := true, keyIdx, valIdx, mode, kvs;
    if c == '&' || (c == ';' && SemicolonSeparates in flags) {
      var key := Copy(keyBuf, keyIdx, q.key);
      var val := Copy(valBuf, valIdx, q.val);
      kvs' := kvs + [Kv(key, Some(val))];
      keyIdx', valIdx', mode' := 0, 0, InKey;
      Clear(keyBuf);
      Clear(valBuf);
    } else {
      Put(valBuf, valIdx, c, q.val);
      valIdx' := valIdx + 1;
      if c == '%' && IgnoreHex !in flags {
        mode' := ValHex1;
      }
    }
  }

  /** One character, in any state. */
  method Take(flags: Flags, len: nat, keyBuf: array<char>, valBuf: array<char>, keyIdx: nat, valIdx: nat, mode: Mode,
              kvs: seq<Kv>, c: char, ghost q: Machine)
    returns (ok: bool, keyIdx': nat, valIdx': nat, mode': Mode, kvs': seq<Kv>)
    requires keyBuf != valBuf && keyIdx + 1 < keyBuf.Length && valIdx + 1 < valBuf.Length
    requires Pending(q) && mode == q.mode && kvs == q.kvs && Holds(keyBuf, keyIdx, q.key) &&
      Holds(valBuf, valIdx, q.val)
    modifies keyBuf, valBuf
    ensures var q' := Step(flags, len, q, c);
      ok <==> q'.At?
    ensures var q' := Step(flags, len, q, c);
      q'.At? ==> mode' == q'.mode && kvs' == q'.kvs && Holds(keyBuf, keyIdx', q'.key) && Holds(valBuf, valIdx', q'.val)
  {
    ok, keyIdx', valIdx', mode', kvs' := true, keyIdx, valIdx, mode, kvs;
    match mode {
      case InKey =>
        ok, keyIdx', valIdx', mode', kvs' := TakeKey(flags, keyBuf, valBuf, keyIdx, valIdx, mode, kvs, c, q);
      case InVal =>
        ok, keyIdx', valIdx', mode', kvs' := TakeVal(flags, keyBuf, valBuf, keyIdx, valIdx, mode, kvs, c, q);
      case KeyHex1 =>
        if !HexChar(c) {
          if keyIdx + 2 >= len {
            ok := false;
            return;
          }
          Escape(keyBuf, keyIdx, q.key);
          mode' := InKey;
        } else {
          mode' := KeyHex2;
        }
        Put(keyBuf, keyIdx, c, q.key);
        keyIdx' := keyIdx + 1;
      case ValHex1 =>
        if !HexChar(c) {
          if valIdx + 2 >= len {
            ok := false;
            return;
          }
          Escape(valBuf, valIdx, q.val);
          mode' := InVal;
        } else {
          mode' := ValHex2;
        }
        Put(valBuf, valIdx, c, q.val);
        valIdx' := valIdx + 1;
      case KeyHex2 =>
        if !HexChar(c) {
          ok := false;
          return;
        }
        Put(keyBuf, keyIdx, c, q.key);
        keyIdx', mode' := keyIdx + 1, InKey;
      case ValHex2 =>
        if !HexChar(c) {
          ok := false;
          return;
        }
        Put(valBuf, valIdx, c, q.val);
        valIdx', mode' := valIdx + 1, InVal;
    }
  }

  /** buf[n - 1] = '%', which it already is. */
  method Escape(buf: array<char>, n: nat, ghost s: string)
    requires Holds(buf, n, s) && s != "" && s[|s| - 1] == '%'
    modifies buf
    ensures Holds(buf, n, s)
  {
    assert buf[n - 1] == buf[..n][n - 1];
    buf[n - 1] := '%';
  }

  /** What follows the loop. */
  method Rest(flags: Flags, keyBuf: array<char>, valBuf: array<char>, keyIdx: nat, valIdx: nat, mode: Mode,
      kvs: seq<Kv>,
              ghost q: Machine) returns (parsed: Option<seq<Kv>>)
    requires q.At? && mode == q.mode && kvs == q.kvs && Holds(keyBuf, keyIdx, q.key) && Holds(valBuf, valIdx, q.val)
    ensures parsed == Finish(flags, q)
  {
    if keyIdx == 0 {
      return Some(kvs);
    }
    var key := Copy(keyBuf, keyIdx, q.key);
    if valIdx != 0 {
      var val := Copy(valBuf, valIdx, q.val);
      return Some(kvs + [Kv(key, Some(val))]);
    }
    if !mode.InKey? {
      return if AllowEmptyVals in flags then Some(kvs + [Kv(key, Some(""))]) else None;
    }
    return if AllowNullVals in flags then Some(kvs + [Kv(key, None)]) else None;
  }

  /** evhtp_parse_query_wflags. Both indices stay below len, so its bounds check on them never fires. */
  method ParseQuery(query: string, flags: Flags) returns (parsed: Option<seq<Kv>>)
    requires |query| <= SIZE_MAX
    ensures parsed == Parse(flags, query)
  {
    var len := |query|;
    if len > SIZE_MAX - (len + 2) % (SIZE_MAX + 1) {
      return None;
    }
    var keyBuf, valBuf := new char[len + 1], new char[len + 1];
    var keyIdx: nat, valIdx: nat, mode, kvs := 0, 0, InKey, [];
    Clear(keyBuf);
    Clear(valBuf);
    ghost var q := BEGIN;
    var i := 0;
    while i < len
      invariant i <= len && fresh(keyBuf) && fresh(valBuf) && keyBuf != valBuf
      invariant keyBuf.Length == valBuf.Length == len + 1
      invariant Pending(q) && mode == q.mode && kvs == q.kvs && keyIdx + valIdx <= i
      invariant Holds(keyBuf, keyIdx, q.key) && Holds(valBuf, valIdx, q.val)
      invariant Run(flags, len, q, query[i..]) == Run(flags, len, BEGIN, query)
    {
      var c := query[i];
      ghost var q' := Step(flags, len, q, c);
      assert query[i..][0] == c && query[i..][1..] == query[i + 1..];
      var ok;
      ok, keyIdx, valIdx, mode, kvs := Take(flags, len, keyBuf, valBuf, keyIdx, valIdx, mode, kvs, c, q);
      if !ok {
        FailedStays(flags, len, query[i + 1..]);
        return None;
      }
      PendingStays(flags, len, q, c);
      q := q';
      i := i + 1;
    }
    assert query[i..] == "";
    parsed := Rest(flags, keyBuf, valBuf, keyIdx, valIdx, mode, kvs, q);
  }
}
