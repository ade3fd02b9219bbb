/**
 Numbers as text: the parser's decimal and chunk-size readers (msgparser.c) and the decimal printer
 that works in place (numtoa.c), each the other's inverse.
 */
module Numbers {
  import opened Prelude
  import opened Text

  // ---------------------------------------------------------------------------------------
  // Reading
  // ---------------------------------------------------------------------------------------

  lemma {:induction false} DecimalSnoc(s: string, c: char)
    requires Digits(s) && Digit(c)
    ensures Digits(s + [c]) && Decimal(s + [c]) == Decimal(s) * 10 + DigitValue(c)
  {
    assert (s + [c])[..|s|] == s;
  }

  /** More digits never make a number smaller. */
  lemma {:induction false} DecimalGrows(s: string, i: nat)
    requires Digits(s) && i <= |s|
    ensures Decimal(s[..i]) <= Decimal(s)
  {
    if i == |s| {
      assert s[..i] == s;
    } else {
      var init := s[..|s| - 1];
      DecimalGrows(init, i);
      assert init[..i] == s[..i];
    }
  }

  /** parse_u64: succeeds exactly on non-empty digit strings below 2^64, with their value. */
  method ReadU64(s: string) returns (r: Option<nat>)
    ensures r == ParseU64(s)
  {
    var v: nat := 0;
    if |s| == 0 {
      return None;
    }
    var i := 0;
    while i < |s|
      invariant i <= |s| && Digits(s[..i]) && v == Decimal(s[..i]) && v < U64_LIMIT
    {
      if !Digit(s[i]) {
        return None;
      }
      var d := DigitValue(s[i]);
      DecimalSnoc(s[..i], s[i]);
      assert s[..i] + [s[i]] == s[..i + 1];
      if v > (U64_LIMIT - 1 - d) / 10 {
        if Digits(s) {
          DecimalGrows(s, i + 1);
        }
        return None;
      }
      v := v * 10 + d;
      i := i + 1;
    }
    assert s[..i] == s;
    r := Some(v);
  }

  lemma {:induction false} HexSnoc(s: string, c: char)
    requires HexDigits(s) && HexDigit(c)
    ensures HexDigits(s + [c]) && Hexadecimal(s + [c]) == Hexadecimal(s) * 16 + HexValue(c)
  {
    assert (s + [c])[..|s|] == s;
  }

  lemma {:induction false} HexRunIs(s: string, n: nat)
    requires n <= |s| && HexDigits(s[..n]) && (n < |s| ==> !HexDigit(s[n]))
    ensures HexRun(s) == n
  {
    assert forall k :: 0 <= k < n ==> s[..n][k] == s[k];
    assert forall k :: 0 <= k < HexRun(s) ==> s[..HexRun(s)][k] == s[k];
  }

  /** More than 15 digits: whatever follows, the line is refused. */
  lemma {:induction false} HexRunAtLeast(s: string, n: nat)
    requires n <= |s| && HexDigits(s[..n])
    ensures HexRun(s) >= n
  {
    assert forall k :: 0 <= k < n ==> s[..n][k] == s[k];
  }

  lemma {:induction false} ExtensionSkips(s: string, i: nat)
    requires i <= |s| && forall j :: 0 <= j < i ==> Blank(s[j])
    ensures ExtensionOk(s) == ExtensionOk(s[i..])
  {
    if i > 0 {
      assert s[0] != ';';
      ExtensionSkips(s[1..], i - 1);
      assert s[1..][i - 1..] == s[i..];
    } else {
      assert s[0..] == s;
    }
  }

  /** parse_chunk_size: 1 to 15 hexadecimal digits, then blanks up to an extension or the end. */
  method ReadChunkSize(s: string) returns (r: Option<nat>)
    ensures r == ParseChunkSize(s)
  {
    var v: nat, n := 0, 0;
    while n < |s| && HexDigit(s[n])
      invariant n <= |s| && n <= MAX_SIZE_DIGITS && HexDigits(s[..n]) && v == Hexadecimal(s[..n])
    {
      HexSnoc(s[..n], s[n]);
      assert s[..n] + [s[n]] == s[..n + 1];
      if n == MAX_SIZE_DIGITS {
        HexRunAtLeast(s, n + 1);
        return None;
      }
      v := v * 16 + HexValue(s[n]);
      n := n + 1;
    }
    HexRunIs(s, n);
    if n == 0 {
      return None;
    }
    var ok := ReadExtension(s[n..]);
    r := if ok then Some(v) else None;
  }

  /** What follows the digits: blanks, then nothing or an extension. */
  method ReadExtension(s: string) returns (ok: bool)
    ensures ok == ExtensionOk(s)
  {
    var i := 0;
    while i < |s|
      invariant i <= |s| && forall j :: 0 <= j < i ==> Blank(s[j])
    {
      ExtensionSkips(s, i);
      if s[i] == ';' {
        return true;
      }
      if !Blank(s[i]) {
        return false;
      }
      i := i + 1;
    }
    ExtensionSkips(s, i);
    ok := true;
  }

  /** A hexadecimal digit has its place among the sixteen, in either case, and nothing else is one. */
  lemma {:induction false} HexValueIs(c: char, d: nat)
    requires d < 16
    ensures HexValue(c) == d <==> c == "0123456789abcdef"[d] || c == "0123456789ABCDEF"[d]
    ensures HexValue(c) < 16 && (HexDigit(c) <==> HexValue(c) != -1)
  {
  }

  /** A chunk-size line: 1 to 15 digits, then blanks, then nothing or an extension. */
  ghost predicate SizeWords(line: string, digits: string) {
    && 1 <= |digits| <= 15 && HexDigits(digits)
    && exists blanks, ext :: (forall i :: 0 <= i < |blanks| ==> Blank(blanks[i])) && (ext == "" || ext[0] == ';') &&
         line == digits + (blanks + ext)
  }

  /** Such a line is read as the number its digits write. */
  lemma {:induction false} SizeRead(line: string, digits: string)
    requires SizeWords(line, digits)
    ensures ParseChunkSize(line) == Some(Hexadecimal(digits))
  {
    var blanks, ext :| (forall i :: 0 <= i < |blanks| ==> Blank(blanks[i])) && (ext == "" || ext[0] == ';') &&
      line == digits + (blanks + ext);
    var n := |digits|;
    assert line[..n] == digits && line[n..] == blanks + ext;
    assert forall i :: 0 <= i < n ==> line[i] == digits[i];
    if n < |line| {
      assert line[n] == (blanks + ext)[0];
      assert blanks == "" ==> (blanks + ext)[0] == ext[0];
      assert !HexDigit(line[n]);
    }
    HexRunIs(line, n);
    BlanksThenExtension(blanks, ext);
  }

  lemma {:induction false} BlanksThenExtension(blanks: string, ext: string)
    requires (forall i :: 0 <= i < |blanks| ==> Blank(blanks[i])) && (ext == "" || ext[0] == ';')
    ensures ExtensionOk(blanks + ext)
    decreases |blanks|
  {
    if blanks == "" {
      assert blanks + ext == ext;
    } else {
      assert (blanks + ext)[1..] == blanks[1..] + ext;
      BlanksThenExtension(blanks[1..], ext);
    }
  }

  /** And no other line is read as a size. */
  lemma {:induction false} SizeIs(line: string)
    requires ParseChunkSize(line).Some?
    ensures exists digits :: SizeWords(line, digits) && ParseChunkSize(line) == Some(Hexadecimal(digits))
  {
    var n := HexRun(line);
    var blanks, ext := ExtensionIs(line[n..]);
    assert line == line[..n] + (blanks + ext);
    assert SizeWords(line, line[..n]);
  }

  lemma {:induction false} ExtensionIs(s: string) returns (blanks: string, ext: string)
    requires ExtensionOk(s)
    ensures (forall i :: 0 <= i < |blanks| ==> Blank(blanks[i])) && (ext == "" || ext[0] == ';') && s == blanks + ext
    decreases |s|
  {
    if s == "" || s[0] == ';' {
      blanks, ext := "", s;
    } else {
      blanks, ext := ExtensionIs(s[1..]);
      blanks := [s[0]] + blanks;
      assert s == [s[0]] + s[1..];
    }
  }

  // ---------------------------------------------------------------------------------------
  // Printing
  // ---------------------------------------------------------------------------------------

  function DigitChar(d: nat): (c: char)
    requires d < 10
    ensures Digit(c) && DigitValue(c) == d
  {
    ('0' as int + d) as char
  }

  /** The decimal numeral of n. */
  function Numeral(n: nat): (s: string)
    ensures s != [] && Digits(s) && Decimal(s) == n
    ensures n > 0 ==> s[0] != '0'
  {
    if n < 10 then [DigitChar(n)] else
    DecimalSnoc(Numeral(n / 10), DigitChar(n % 10));
    Numeral(n / 10) + [DigitChar(n % 10)]
  }

  function Power10(k: nat): nat {
    if k == 0 then 1 else 10 * Power10(k - 1)
  }

  lemma {:induction false} NumeralLength(n: nat, k: nat)
    requires k > 0 && n < Power10(k)
    ensures |Numeral(n)| <= k
  {
    if n >= 10 {
      NumeralLength(n / 10, k - 1);
    }
  }

  lemma {:induction false} U64NumeralLength(n: nat)
    requires n < U64_LIMIT
    ensures |Numeral(n)| <= 20
  {
    assert Power10(20) == 100_000_000_000_000_000_000 by {
      assert Power10(5) == 100_000;
      assert Power10(10) == 10_000_000_000;
      assert Power10(15) == 1_000_000_000_000_000;
    }
    NumeralLength(n, 20);
  }

  /** The parser reads back what the printer prints. */
  lemma {:induction false} PrintedReadsBack(n: nat)
    ensures ParseU64(Numeral(n)) == if n <= 18446744073709551615 then Some(n) else None
  {
  }

  /** And prints back what the parser read, up to leading zeros. */
  lemma {:induction false} ReadPrintsBack(s: string)
    requires ParseU64(s).Some? && (|s| > 1 ==> s[0] != '0')
    ensures Numeral(ParseU64(s).value) == s
  {
    DecimalNumeral(s);
  }

  lemma {:induction false} DecimalNumeral(s: string)
    requires s != [] && Digits(s) && (|s| > 1 ==> s[0] != '0')
    ensures Numeral(Decimal(s)) == s
    ensures |s| > 1 ==> Decimal(s) >= 10
  {
    var init, c := s[..|s| - 1], s[|s| - 1];
    if |s| == 1 {
      assert init == [] && s == [c];
    } else {
      DecimalNumeral(init);
      assert s == init + [c];
      if |init| == 1 {
        assert init == [init[0]] && Decimal(init[..0]) == 0;
      }
    }
  }

  /** strreverse: the characters from begin to end, inclusive, swapped end for end. */
  method ReverseInPlace(str: array<char>, begin: nat, end: nat)
    requires begin <= end < str.Length
    modifies str
    ensures forall i :: begin <= i <= end ==> str[i] == old(str[begin + end - i])
    ensures forall i :: 0 <= i < begin || end < i < str.Length ==> str[i] == old(str[i])
  {
    var b, e: int := begin, end;
    while e > b
      invariant begin <= b <= e + 1 <= end + 1 && b - begin == end - e
      invariant forall i :: 0 <= i < begin || end < i < str.Length ==> str[i] == old(str[i])
      invariant forall i :: b <= i <= e ==> str[i] == old(str[i])
      invariant forall i :: begin <= i < b || e < i <= end ==> str[i] == old(str[begin + end - i])
    {
      str[e], str[b] := str[b], str[e];
      e := e - 1;
      b := b + 1;
    }
  }

  lemma {:induction false} NumeralLast(v: nat)
    ensures var s := Numeral(v);
      && s[|s| - 1] == DigitChar(v % 10)
      && (if v < 10 then |s| == 1 else |s| > 1 && Numeral(v / 10) == s[..|s| - 1])
  {
  }

  /** The printer's first loop: the digits of value, last one first. */
  method WriteDigits(value: nat, str: array<char>) returns (w: nat)
    requires value < U64_LIMIT && str.Length >= 20
    modifies str
    ensures w == |Numeral(value)| <= 20
    ensures forall i :: 0 <= i < w ==> str[i] == Numeral(value)[w - 1 - i]
    ensures forall i :: w <= i < str.Length ==> str[i] == old(str[i])
  {
    hide Numeral, DigitChar;
    U64NumeralLength(value);
    var v := value;
    ghost var s := Numeral(value);
    w := 0;
    while true
      invariant w < |s| && Numeral(v) == s[..|s| - w]
      invariant forall i :: 0 <= i < w ==> str[i] == s[|s| - 1 - i]
      invariant forall i :: w <= i < str.Length ==> str[i] == old(str[i])
      decreases v
    {
      NumeralLast(v);
      str[w] := DigitChar(v % 10);
      w := w + 1;
      if v < 10 {
        break;
      }
      v := v / 10;
    }
  }

  /** evhtp_modp_u64toa: the digits are written backwards, ended with NUL, and reversed in place. */
  method U64ToA(value: nat, str: array<char>) returns (len: nat)
    requires value < U64_LIMIT && str.Length >= 21
    modifies str
    ensures 0 < len <= 20 && str[..len] == Numeral(value) && str[len] == '\0'
    ensures forall i :: len < i < str.Length ==> str[i] == old(str[i])
  {
    len := WriteDigits(value, str);
    str[len] := '\0';
    ReverseInPlace(str, 0, len - 1);
  }
}
