/** Byte strings as the parser looks at them. A byte is a `char`. */
module Text {
  import opened Prelude

  /** The position of the first `c`, or the length when there is none (memchr). */
  function IndexOf(s: string, c: char): (i: nat)
    ensures i <= |s|
    ensures forall j :: 0 <= j < i ==> s[j] != c
    ensures i < |s| ==> s[i] == c
  {
    if s == [] then 0 else if s[0] == c then 0 else 1 + IndexOf(s[1..], c)
  }

  /** What IndexOf's contract leaves no choice about. */
  lemma {:induction false} IndexOfUnique(s: string, c: char, i: nat)
    requires i <= |s| && (forall j :: 0 <= j < i ==> s[j] != c) && (i < |s| ==> s[i] == c)
    ensures IndexOf(s, c) == i
  {
  }

  /** Seeing more bytes does not move a first occurrence. */
  lemma {:induction false} IndexOfExtends(a: string, b: string, c: char)
    ensures IndexOf(a, c) < |a| ==> IndexOf(a + b, c) == IndexOf(a, c)
    ensures IndexOf(a, c) == |a| ==> IndexOf(a + b, c) >= |a|
  {
    var i := IndexOf(a, c);
    assert i < |a| ==> (a + b)[i] == c;
    assert forall k :: 0 <= k < |a| ==> (a + b)[k] == a[k];
  }

  predicate Blank(c: char) {
    c == ' ' || c == '\t'
  }

  function TrimLeft(s: string): string {
    if s != [] && Blank(s[0]) then TrimLeft(s[1..]) else s
  }

  function TrimRight(s: string): string {
    if s != [] && Blank(s[|s| - 1]) then TrimRight(s[..|s| - 1]) else s
  }

  function SkipSpaces(s: string): string {
    if s != [] && s[0] == ' ' then SkipSpaces(s[1..]) else s
  }

  /** The next SP-delimited token and what follows it and its spaces. */
  function NextToken(s: string): (string, string) {
    var t := SkipSpaces(s);
    var n := IndexOf(t, ' ');
    (t[..n], SkipSpaces(t[n..]))
  }

  predicate Digit(c: char) {
    '0' <= c <= '9'
  }

  function DigitValue(c: char): nat
    requires Digit(c)
  {
    c as int - '0' as int
  }

  predicate Digits(s: string) {
    forall i :: 0 <= i < |s| ==> Digit(s[i])
  }

  /** The number a digit string writes. */
  function Decimal(s: string): nat
    requires Digits(s)
  {
    if s == [] then 0 else Decimal(s[..|s| - 1]) * 10 + DigitValue(s[|s| - 1])
  }

  const U64_LIMIT: nat := 0x1_0000_0000_0000_0000

  /** A decimal 64-bit number: digits only, at least one, in range. */
  function ParseU64(s: string): Option<nat> {
    if s != [] && Digits(s) && Decimal(s) < U64_LIMIT then Some(Decimal(s)) else None
  }

  function HexValue(c: char): int {
    if '0' <= c <= '9' then c as int - '0' as int
    else if 'a' <= c <= 'f' then c as int - 'a' as int + 10
    else if 'A' <= c <= 'F' then c as int - 'A' as int + 10
    else -1
  }

  predicate HexDigit(c: char) {
    HexValue(c) >= 0
  }

  predicate HexDigits(s: string) {
    forall i :: 0 <= i < |s| ==> HexDigit(s[i])
  }

  /** The number a hexadecimal string writes. */
  function Hexadecimal(s: string): nat
    requires HexDigits(s)
  {
    if s == [] then 0 else Hexadecimal(s[..|s| - 1]) * 16 + HexValue(s[|s| - 1])
  }

  /** How many leading characters are hexadecimal digits. */
  function HexRun(s: string): (n: nat)
    ensures n <= |s| && HexDigits(s[..n])
    ensures n < |s| ==> !HexDigit(s[n])
  {
    if s == [] || !HexDigit(s[0]) then 0 else
    var n := 1 + HexRun(s[1..]);
    assert forall i :: 0 <= i < n ==> s[..n][i] == if i == 0 then s[0] else s[1..][..n - 1][i - 1];
    n
  }

  /** Nothing but blanks up to a chunk extension or the end of the line. */
  predicate ExtensionOk(s: string) {
    s != [] && s[0] != ';' ==> Blank(s[0]) && ExtensionOk(s[1..])
  }

  const MAX_SIZE_DIGITS: nat := 15

  /** chunk-size, as the parser accepts it: 1 to 15 hexadecimal digits, then blanks or an extension. */
  function ParseChunkSize(s: string): Option<nat> {
    var n := HexRun(s);
    if 1 <= n <= MAX_SIZE_DIGITS && ExtensionOk(s[n..]) then Some(Hexadecimal(s[..n])) else None
  }
}
