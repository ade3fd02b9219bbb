/**
 The wildcard matcher of evhtp.c: `*` stands for any text, every other character for itself. The
 matcher collapses runs of stars, never tries the empty tail after a star, and relies on the NUL
 that ends a C string; it accepts exactly what the pattern means.
 */
module Glob {

  // ---------------------------------------------------------------------------------------
  // What a pattern means
  // ---------------------------------------------------------------------------------------

  /** The pattern with its stars replaced, in order, by the given texts. */
  function Fill(pattern: string, texts: seq<string>): string
    decreases |pattern|
  {
    if pattern == "" then ""
    else if pattern[0] != '*' then [pattern[0]] + Fill(pattern[1..], texts)
    else if texts == [] then Fill(pattern[1..], [])
    else texts[0] + Fill(pattern[1..], texts[1..])
  }

  function Stars(pattern: string): nat
    decreases |pattern|
  {
    if pattern == "" then 0 else Stars(pattern[1..]) + (if pattern[0] == '*' then 1 else 0)
  }

  /** Some way of replacing the stars gives the text. */
  ghost predicate Means(pattern: string, text: string) {
    exists texts: seq<string> :: |texts| == Stars(pattern) && Fill(pattern, texts) == text
  }

  // ---------------------------------------------------------------------------------------
  // The same, character by character
  // ---------------------------------------------------------------------------------------

  predicate Matches(pattern: string, text: string)
    decreases |pattern|
  {
    if pattern == "" then text == ""
    else if pattern[0] == '*' then exists k :: 0 <= k <= |text| && Matches(pattern[1..], text[k..])
    else text != "" && text[0] == pattern[0] && Matches(pattern[1..], text[1..])
  }

  lemma {:induction false} MatchesFills(pattern: string, text: string) returns (texts: seq<string>)
    requires Matches(pattern, text)
    ensures |texts| == Stars(pattern) && Fill(pattern, texts) == text
    decreases |pattern|
  {
    if pattern == "" {
      texts := [];
    } else if pattern[0] == '*' {
      var k :| 0 <= k <= |text| && Matches(pattern[1..], text[k..]);
      var rest := MatchesFills(pattern[1..], text[k..]);
      texts := [text[..k]] + rest;
      assert texts[1..] == rest;
      assert text[..k] + text[k..] == text;
    } else {
      texts := MatchesFills(pattern[1..], text[1..]);
      assert [text[0]] + text[1..] == text;
    }
  }

  lemma {:induction false} FillMatches(pattern: string, texts: seq<string>)
    requires |texts| == Stars(pattern)
    ensures Matches(pattern, Fill(pattern, texts))
    decreases |pattern|
  {
    if pattern != "" {
      var text := Fill(pattern, texts);
      if pattern[0] == '*' {
        FillMatches(pattern[1..], texts[1..]);
        assert text[|texts[0]|..] == Fill(pattern[1..], texts[1..]);
      } else {
        FillMatches(pattern[1..], texts);
        assert text[1..] == Fill(pattern[1..], texts);
      }
    }
  }

  lemma {:induction false} MatchesIsMeaning(pattern: string, text: string)
    ensures Matches(pattern, text) <==> Means(pattern, text)
  {
    if Matches(pattern, text) {
      var texts := MatchesFills(pattern, text);
    }
    if Means(pattern, text) {
      var texts :| |texts| == Stars(pattern) && Fill(pattern, texts) == text;
      FillMatches(pattern, texts);
    }
  }

  // ---------------------------------------------------------------------------------------
  // Stars
  // ---------------------------------------------------------------------------------------

  lemma {:induction false} LoneStar(text: string)
    ensures Matches("*", text)
  {
    assert text[|text|..] == "" && "*"[1..] == "";
    assert Matches("*"[1..], text[|text|..]);
  }

  lemma {:induction false} StarsCollapse(rest: string, text: string)
    ensures Matches("**" + rest, text) == Matches("*" + rest, text)
  {
    assert ("**" + rest)[1..] == "*" + rest && ("*" + rest)[1..] == rest;
    if k :| 0 <= k <= |text| && Matches("*" + rest, text[k..]) {
      var j :| 0 <= j <= |text[k..]| && Matches(rest, text[k..][j..]);
      assert text[k..][j..] == text[k + j..];
    }
    if Matches("*" + rest, text) {
      assert text[0..] == text;
      assert Matches(("**" + rest)[1..], text[0..]);
    }
  }

  /** On an empty text a star is as good as nothing. */
  lemma {:induction false} StarOnEmpty(rest: string)
    ensures Matches("*" + rest, "") == Matches(rest, "")
  {
    assert ("*" + rest)[1..] == rest && ""[0..] == "";
    assert Matches(rest, "") ==> Matches(("*" + rest)[1..], ""[0..]);
  }

  /** A star before more pattern matches by some tail; a tail that must begin with a character is not empty. */
  lemma {:induction false} StarTries(rest: string, text: string)
    requires rest != "" && rest[0] != '*'
    ensures Matches("*" + rest, text) <==> exists k :: 0 <= k < |text| && Matches(rest, text[k..])
  {
    assert ("*" + rest)[1..] == rest;
    if Matches("*" + rest, text) {
      var k :| 0 <= k <= |text| && Matches(rest, text[k..]);
      assert k < |text|;
    }
  }

  // ---------------------------------------------------------------------------------------
  // The matcher
  // ---------------------------------------------------------------------------------------

  /** The memory at a pointer to a C string of n characters. */
  predicate CString(s: string, n: nat) {
    |s| == n + 1 && s[n] == '\0' && '\0' !in s[..n]
  }

  lemma {:induction false} CStringTail(s: string, n: nat)
    requires CString(s, n) && n > 0
    ensures s[0] != '\0' && CString(s[1..], n - 1)
    ensures s[..n][0] == s[0] && s[1..][..n - 1] == s[..n][1..] && [s[0]] + s[1..][..n - 1] == s[..n]
  {
    assert s[..n][0] == s[0];
    assert s[1..][..n - 1] == s[..n][1..];
  }

  /** The loops that move the pattern past stars. Each keeps what the pattern means on this text. */
  method CollapseStars(pattern: string, plen: nat, ghost text: string) returns (p: string, n: nat)
    requires CString(pattern, plen) && plen > 0 && pattern[0] == '*'
    ensures CString(p, n) && 0 < n <= plen && p[0] == '*' && p[1] != '*'
    ensures Matches(p[..n], text) == Matches(pattern[..plen], text)
  {
    p, n := pattern, plen;
    while p[1] == '*'
      invariant CString(p, n) && 0 < n <= plen && p[0] == '*'
      invariant Matches(p[..n], text) == Matches(pattern[..plen], text)
      decreases n
    {
      assert p[..n] == "**" + p[2..n] && p[1..][..n - 1] == "*" + p[2..n];
      StarsCollapse(p[2..n], text);
      CStringTail(p, n);
      p, n := p[1..], n - 1;
    }
  }

  method SkipStars(pattern: string, plen: nat) returns (p: string, n: nat)
    requires CString(pattern, plen)
    ensures CString(p, n) && n <= plen && (n > 0 ==> p[0] != '*')
    ensures Matches(p[..n], "") == Matches(pattern[..plen], "")
  {
    p, n := pattern, plen;
    while p[0] == '*'
      invariant CString(p, n) && n <= plen
      invariant Matches(p[..n], "") == Matches(pattern[..plen], "")
      decreases n
    {
      CStringTail(p, n);
      StarOnEmpty(p[1..][..n - 1]);
      assert p[..n] == "*" + p[1..][..n - 1];
      p, n := p[1..], n - 1;
    }
  }

  /** htp__glob_match_. Pointers are the memory from there on, its NUL included. */
  method GlobMatch(pattern: string, plen: nat, text: string, len: nat) returns (matched: bool)
    requires CString(pattern, plen) && CString(text, len)
    ensures matched <==> Matches(pattern[..plen], text[..len])
    ensures matched <==> Means(pattern[..plen], text[..len])
    decreases plen, 0
  {
    MatchesIsMeaning(pattern[..plen], text[..len]);
    var p, t := pattern, text;
    var n: nat, m: nat := plen, len;
    while n > 0
      invariant CString(p, n) && CString(t, m) && n <= plen
      invariant Matches(p[..n], t[..m]) == Matches(pattern[..plen], text[..len])
      decreases n
    {
      if p[0] == '*' {
        p, n := CollapseStars(p, n, t[..m]);
        if n == 1 {
          assert p[..n] == "*";
          LoneStar(t[..m]);
          return true;
        }
        matched := TryTails(p[1..], n - 1, t, m);
        CStringTail(p, n);
        return;
      }
      CStringTail(p, n);
      if p[0] != t[0] {
        return false;
      }
      CStringTail(t, m);
      p, n, t, m := p[1..], n - 1, t[1..], m - 1;
      if m == 0 {
        assert t[..m] == "";
        p, n := SkipStars(p, n);
        break;
      }
    }
    matched := n == 0 && m == 0;
  }

  /** The loop after a star: the rest of the pattern on every tail that is not empty. */
  method TryTails(pattern: string, plen: nat, text: string, len: nat) returns (matched: bool)
    requires CString(pattern, plen) && plen > 0 && pattern[0] != '*' && CString(text, len)
    ensures matched <==> Matches("*" + pattern[..plen], text[..len])
    decreases plen, 1
  {
    var rest := pattern[..plen];
    var whole := text[..len];
    StarTries(rest, whole);
    var t := text;
    var m: nat := len;
    while m > 0
      invariant m <= len && CString(t, m) && t[..m] == whole[len - m..]
      invariant forall k :: 0 <= k < len - m ==> !Matches(rest, whole[k..])
    {
      matched := GlobMatch(pattern, plen, t, m);
      if matched {
        assert Matches(rest, whole[len - m..]);
        return;
      }
      CStringTail(t, m);
      assert whole[len - m..][1..] == whole[len - (m - 1)..];
      t, m := t[1..], m - 1;
    }
    matched := false;
  }
}
