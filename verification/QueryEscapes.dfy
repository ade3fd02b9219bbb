/**
 Queries whose escapes are looked at. A query is a sequence of units: a character that is not a percent
 sign, a percent sign and a character that is no hexadecimal digit, or a percent sign, a digit and one more
 character. Only a unit of one character separates or is an equals sign; a unit that begins like an escape
 and does not end like one refuses the query; the others stand for themselves.
 */
module QueryEscapes {
  import opened Prelude
  import opened Query

  // ---------------------------------------------------------------------------------------
  // Units
  // ---------------------------------------------------------------------------------------

  const HEX: string := "0123456789abcdefABCDEF"

  lemma {:induction false} HexCharIs(c: char)
    ensures HexChar(c) <==> c in HEX
  {
    if HexChar(c) {
      var i := if c <= '9' then c as int - '0' as int else if c <= 'F' then c as int - 'A' as int + 16
        else c as int - 'a' as int + 10;
      assert HEX[i] == c;
    }
  }

  /** A percent sign that begins no escape, with the character after it. */
  predicate Stray(u: string) {
    |u| == 2 && u[0] == '%' && u[1] !in HEX
  }

  /** A percent sign and a digit, and whatever comes after them. */
  predicate Escape3(u: string) {
    |u| == 3 && u[0] == '%' && u[1] in HEX
  }

  /** An escape the end of the query cuts off. */
  predicate CutOff(u: string) {
    u == "%" || (|u| == 2 && u[0] == '%' && u[1] in HEX)
  }

  predicate Unit(u: string, last: bool) {
    (|u| == 1 && u[0] != '%') || Stray(u) || Escape3(u) || (last && CutOff(u))
  }

  predicate Units(us: seq<string>) {
    forall i :: 0 <= i < |us| ==> Unit(us[i], i == |us| - 1)
  }

  function Joined(us: seq<string>): string {
    if us == [] then "" else us[0] + Joined(us[1..])
  }

  /** How long the first unit is. */
  function UnitLength(s: string): (n: nat)
    requires s != ""
    ensures 0 < n <= |s|
  {
    if s[0] != '%' || |s| == 1 then 1 else if |s| == 2 || s[1] !in HEX then 2 else 3
  }

  function UnitsOf(s: string): seq<string>
    decreases |s|
  {
    if s == "" then [] else var n := UnitLength(s); [s[..n]] + UnitsOf(s[n..])
  }

  /** Every text is cut into units in exactly one way. */
  lemma {:induction false} UnitsOfIs(s: string)
    ensures Units(UnitsOf(s)) && Joined(UnitsOf(s)) == s
    decreases |s|
  {
    if s != "" {
      var n := UnitLength(s);
      UnitsOfIs(s[n..]);
      UnitsCons(s[..n], UnitsOf(s[n..]));
      assert s == s[..n] + s[n..];
    }
  }

  lemma {:induction false} UnitsCons(u: string, us: seq<string>)
    requires Unit(u, us == []) && Units(us)
    ensures Units([u] + us) && Joined([u] + us) == u + Joined(us)
  {
    var all := [u] + us;
    assert all[1..] == us;
    forall i | 0 <= i < |all| ensures Unit(all[i], i == |all| - 1) {
      if i > 0 {
        assert all[i] == us[i - 1];
      }
    }
  }

  lemma {:induction false} UnitsRest(us: seq<string>)
    requires Units(us) && us != []
    ensures Units(us[1..]) && Unit(us[0], us[1..] == [])
  {
  }

  /** A first unit is as long as the text that begins with it says. */
  lemma {:induction false} FirstUnit(u: string, rest: string, last: bool)
    requires Unit(u, last) && (last ==> rest == "")
    ensures UnitLength(u + rest) == |u|
  {
  }

  lemma {:induction false} UnitsAreUnique(us: seq<string>)
    requires Units(us)
    ensures UnitsOf(Joined(us)) == us
    decreases |us|
  {
    if us != [] {
      var u, rest := us[0], us[1..];
      UnitsRest(us);
      UnitsAreUnique(rest);
      FirstUnit(u, Joined(rest), rest == []);
      var s := u + Joined(rest);
      assert s[..|u|] == u && s[|u|..] == Joined(rest);
    }
  }

  // ---------------------------------------------------------------------------------------
  // What a query means
  // ---------------------------------------------------------------------------------------

  predicate SeparatorUnit(flags: Flags, u: string) {
    u == "&" || (u == ";" && SemicolonSeparates in flags)
  }

  /** Where the first separator is, or the length. */
  function FirstSeparatorUnit(flags: Flags, us: seq<string>): (n: nat)
    ensures n <= |us| && (forall i :: 0 <= i < n ==> !SeparatorUnit(flags, us[i]))
    ensures n < |us| ==> SeparatorUnit(flags, us[n])
  {
    if us == [] || SeparatorUnit(flags, us[0]) then 0 else 1 + FirstSeparatorUnit(flags, us[1..])
  }

  /** The units between separators. */
  function UnitPieces(flags: Flags, us: seq<string>): (ps: seq<seq<string>>)
    ensures ps != []
    decreases |us|
  {
    var n := FirstSeparatorUnit(flags, us);
    if n == |us| then [us] else [us[..n]] + UnitPieces(flags, us[n + 1..])
  }

  /** Where the first equals sign of a piece is, or the length. */
  function EqualsAt(us: seq<string>): (n: nat)
    ensures n <= |us| && (forall i :: 0 <= i < n ==> us[i] != "=") && (n < |us| ==> us[n] == "=")
  {
    if us == [] || us[0] == "=" then 0 else 1 + EqualsAt(us[1..])
  }

  function UnitKey(us: seq<string>): string {
    Joined(us[..EqualsAt(us)])
  }

  /** What follows the first equals sign. A key the query's end cuts off in an escape has an empty value. */
  function UnitVal(us: seq<string>): Option<string> {
    var n := EqualsAt(us);
    if n < |us| then Some(Joined(us[n + 1..]))
    else if us != [] && CutOff(us[|us| - 1]) then Some("")
    else None
  }

  function UnitReading(flags: Flags, pieces: seq<seq<string>>): Option<seq<Kv>>
    requires pieces != []
    decreases |pieces|
  {
    if |pieces| == 1 then LastOf(flags, UnitKey(pieces[0]), UnitVal(pieces[0]))
    else Join(InnerOf(flags, UnitKey(pieces[0]), UnitVal(pieces[0])), UnitReading(flags, pieces[1..]))
  }

  /**
   A unit that refuses a query of this length: an escape whose second digit is none, or a stray percent sign
   for which the buffer, with `before` already in it, is thought to have no room.
   */
  predicate Refused(len: nat, before: string, u: string) {
    (Escape3(u) && u[2] !in HEX) || (Stray(u) && |before| + 3 >= len)
  }

  /** Some unit of a key or a value is refused. */
  predicate Refuses(len: nat, us: seq<string>) {
    exists i :: 0 <= i < |us| && Refused(len, Joined(us[..i]), us[i])
  }

  predicate PieceRefused(len: nat, us: seq<string>) {
    var n := EqualsAt(us);
    Refuses(len, us[..n]) || (n < |us| && Refuses(len, us[n + 1..]))
  }

  predicate SomeRefused(len: nat, pieces: seq<seq<string>>) {
    exists i :: 0 <= i < |pieces| && PieceRefused(len, pieces[i])
  }

  // ---------------------------------------------------------------------------------------
  // The machine, a unit at a time
  // ---------------------------------------------------------------------------------------

  /** The buffer the machine is filling. */
  function Buffer(q: Machine): string
    requires q.At?
  {
    if q.mode.InKey? then q.key else q.val
  }

  /** The machine with s in that buffer, in another mode. */
  function Added(q: Machine, s: string, mode: Mode): Machine
    requires q.At?
  {
    if q.mode.InKey? then At(mode, q.key + s, q.val, q.kvs) else At(mode, q.key, q.val + s, q.kvs)
  }

  /** Where the end of the query leaves an escape it cuts off. */
  function Waiting(mode: Mode, u: string): Mode {
    if mode.InKey? then (if u == "%" then KeyHex1 else KeyHex2) else if u == "%" then ValHex1 else ValHex2
  }

  /** A unit of a key, or of a value. */
  predicate Plain(flags: Flags, mode: Mode, u: string) {
    !SeparatorUnit(flags, u) && (mode.InKey? ==> u != "=")
  }

  lemma {:induction false} RunOne(flags: Flags, len: nat, q: Machine, c: char)
    ensures Run(flags, len, q, [c]) == Step(flags, len, q, c)
  {
    assert [c][1..] == "";
  }

  lemma {:induction false} RunTwo(flags: Flags, len: nat, q: Machine, s: string)
    requires |s| == 2
    ensures Run(flags, len, q, s) == Step(flags, len, Step(flags, len, q, s[0]), s[1])
  {
    assert s[1..] == [s[1]];
    RunOne(flags, len, Step(flags, len, q, s[0]), s[1]);
  }

  lemma {:induction false} OneUnit(flags: Flags, len: nat, q: Machine, u: string)
    requires IgnoreHex !in flags && q.At? && (q.mode.InKey? || q.mode.InVal?)
    requires Unit(u, true) && Plain(flags, q.mode, u)
    ensures Run(flags, len, q, u) ==
      if Refused(len, Buffer(q), u) then Failed
      else if CutOff(u) then Added(q, u, Waiting(q.mode, u))
      else Added(q, u, q.mode)
  {
    if |u| == 1 {
      assert u == [u[0]];
      RunOne(flags, len, q, u[0]);
    } else {
      assert u[0] == '%';
      HexCharIs(u[1]);
      if |u| == 2 {
        RunTwo(flags, len, q, u);
        assert Buffer(q) + ['%'] + [u[1]] == Buffer(q) + u;
      } else {
        HexCharIs(u[2]);
        RunThree(flags, len, q, u);
        assert u[3..] == "";
        assert Buffer(q) + ['%'] + [u[1]] + [u[2]] == Buffer(q) + u;
      }
    }
  }

  /** Some unit is refused, the buffer already holding `before`. */
  predicate RefusesAfter(len: nat, before: string, us: seq<string>) {
    exists i :: 0 <= i < |us| && Refused(len, before + Joined(us[..i]), us[i])
  }

  lemma {:induction false} RefusesFirst(len: nat, before: string, us: seq<string>)
    requires us != []
    ensures RefusesAfter(len, before, us) <==> Refused(len, before, us[0]) || RefusesAfter(len, before + us[0], us[1..])
  {
    var rest := us[1..];
    assert us[..0] == [] && before + "" == before;
    forall i | 0 <= i < |rest|
      ensures before + us[0] + Joined(rest[..i]) == before + Joined(us[..i + 1]) && rest[i] == us[i + 1]
    {
      assert us[..i + 1][1..] == rest[..i];
    }
    hide Refused;
    if i :| 0 <= i < |us| && Refused(len, before + Joined(us[..i]), us[i]) {
      if i > 0 {
        assert Refused(len, before + us[0] + Joined(rest[..i - 1]), rest[i - 1]);
      }
    }
    if Refused(len, before, us[0]) {
      assert Refused(len, before + Joined(us[..0]), us[0]);
    }
    if i :| 0 <= i < |rest| && Refused(len, before + us[0] + Joined(rest[..i]), rest[i]) {
      assert Refused(len, before + Joined(us[..i + 1]), us[i + 1]);
    }
  }

  lemma {:induction false} RefusesFromNothing(len: nat, us: seq<string>)
    ensures RefusesAfter(len, "", us) <==> Refuses(len, us)
  {
    assert forall i :: 0 <= i < |us| ==> "" + Joined(us[..i]) == Joined(us[..i]);
  }

  /** What units without separators leave. */
  function Filled(len: nat, q: Machine, us: seq<string>): Machine
    requires q.At?
  {
    if RefusesAfter(len, Buffer(q), us) then Failed
    else if us != [] && CutOff(us[|us| - 1]) then Added(q, Joined(us), Waiting(q.mode, us[|us| - 1]))
    else Added(q, Joined(us), q.mode)
  }

  /** A unit, and then the others. */
  lemma {:induction false} FilledFirst(len: nat, q: Machine, us: seq<string>)
    requires q.At? && us != []
    requires |us| > 1 ==> !CutOff(us[0])
    ensures Filled(len, q, us) ==
      if Refused(len, Buffer(q), us[0]) then Failed
      else if |us| > 1 then Filled(len, Added(q, us[0], q.mode), us[1..])
      else if CutOff(us[0]) then Added(q, us[0], Waiting(q.mode, us[0]))
      else Added(q, us[0], q.mode)
  {
    hide Refused, RefusesAfter, CutOff, Waiting;
    var u, rest := us[0], us[1..];
    RefusesFirst(len, Buffer(q), us);
    assert Joined(us) == u + Joined(rest);
    if |us| == 1 {
      assert rest == [] && Joined(us) == u + "" == u;
      hide Joined;
      NothingRefused(len, Buffer(q) + u);
    } else {
      hide Joined;
      assert rest[|rest| - 1] == us[|us| - 1];
      assert Buffer(q) + u + Joined(rest) == Buffer(q) + Joined(us);
    }
  }

  lemma {:induction false} ReadUnits(flags: Flags, len: nat, q: Machine, us: seq<string>)
    requires IgnoreHex !in flags && q.At? && (q.mode.InKey? || q.mode.InVal?) && Units(us)
    requires forall i :: 0 <= i < |us| ==> Plain(flags, q.mode, us[i])
    ensures Run(flags, len, q, Joined(us)) == Filled(len, q, us)
    decreases |us|
  {
    if us == [] {
      assert Buffer(q) + "" == Buffer(q);
    } else {
      var u, rest := us[0], us[1..];
      UnitsRest(us);
      hide Run, Step, Refused, RefusesAfter, Plain, Unit, Units, SeparatorUnit, CutOff, Filled, Waiting, Buffer;
      UnitAnywhere(u, rest == []);
      OneUnit(flags, len, q, u);
      RunJoins(flags, len, q, u, Joined(rest));
      FilledFirst(len, q, us);
      if Run(flags, len, q, u).Failed? {
        FailedStays(flags, len, Joined(rest));
      } else if rest == [] {
        assert u + "" == u;
        RunNothing(flags, len, Run(flags, len, q, u));
      } else {
        ReadUnits(flags, len, Added(q, u, q.mode), rest);
      }
    }
  }

  lemma {:induction false} RunNothing(flags: Flags, len: nat, q: Machine)
    ensures Run(flags, len, q, "") == q
  {
  }

  lemma {:induction false} UnitAnywhere(u: string, last: bool)
    requires Unit(u, last)
    ensures Unit(u, true) && (!last ==> !CutOff(u))
  {
  }

  lemma {:induction false} NothingRefused(len: nat, before: string)
    ensures !RefusesAfter(len, before, [])
  {
  }

  // ---------------------------------------------------------------------------------------
  // Pieces
  // ---------------------------------------------------------------------------------------

  lemma {:induction false} JoinedJoin(a: seq<string>, b: seq<string>)
    ensures Joined(a + b) == Joined(a) + Joined(b)
    decreases |a|
  {
    if a == [] {
      assert a + b == b;
    } else {
      assert (a + b)[1..] == a[1..] + b;
      JoinedJoin(a[1..], b);
    }
  }

  lemma {:induction false} JoinedOne(u: string)
    ensures Joined([u]) == u
  {
    assert [u][1..] == [];
  }

  /** The mode units leave the machine in. */
  function ModeAfter(mode: Mode, us: seq<string>): Mode {
    if us != [] && CutOff(us[|us| - 1]) then Waiting(mode, us[|us| - 1]) else mode
  }

  /** What a piece leaves. */
  function PieceState(len: nat, kvs: seq<Kv>, us: seq<string>): Machine {
    var n := EqualsAt(us);
    if PieceRefused(len, us) then Failed
    else if n < |us| then At(ModeAfter(InVal, us[n + 1..]), UnitKey(us), Joined(us[n + 1..]), kvs)
    else At(ModeAfter(InKey, us), UnitKey(us), "", kvs)
  }

  /** Units fill an empty key, or an empty value. */
  lemma {:induction false} FilledIs(len: nat, key: string, kvs: seq<Kv>, us: seq<string>)
    ensures Filled(len, At(InKey, "", "", kvs), us) ==
      if Refuses(len, us) then Failed else At(ModeAfter(InKey, us), Joined(us), "", kvs)
    ensures Filled(len, At(InVal, key, "", kvs), us) ==
      if Refuses(len, us) then Failed else At(ModeAfter(InVal, us), key, Joined(us), kvs)
  {
    RefusesFromNothing(len, us);
    hide RefusesAfter, Refuses, Waiting, CutOff, Joined;
    assert "" + Joined(us) == Joined(us);
  }

  ghost predicate NoSeparators(flags: Flags, us: seq<string>) {
    forall i :: 0 <= i < |us| ==> !SeparatorUnit(flags, us[i])
  }

  lemma {:induction false} ReadUnitPiece(flags: Flags, len: nat, kvs: seq<Kv>, us: seq<string>)
    requires IgnoreHex !in flags && Units(us) && NoSeparators(flags, us)
    ensures Run(flags, len, At(InKey, "", "", kvs), Joined(us)) == PieceState(len, kvs, us)
  {
    var q, n := At(InKey, "", "", kvs), EqualsAt(us);
    var k := us[..n];
    UnitsPart(us, n);
    hide Run, Step, Unit, Units, SeparatorUnit, Refuses, Joined, Filled, CutOff, Waiting, ModeAfter;
    if n == |us| {
      assert k == us;
      ReadUnits(flags, len, q, us);
      FilledIs(len, "", kvs, us);
    } else {
      var v := us[n + 1..];
      assert us == (k + ["="]) + v;
      ReadKeyAndVal(flags, len, kvs, k, v);
    }
  }

  lemma {:induction false} ReadKeyAndVal(flags: Flags, len: nat, kvs: seq<Kv>, k: seq<string>, v: seq<string>)
    requires IgnoreHex !in flags && Units(k) && Units(v) && NoSeparators(flags, k) && NoSeparators(flags, v)
    requires forall i :: 0 <= i < |k| ==> k[i] != "=" && !CutOff(k[i])
    ensures Run(flags, len, At(InKey, "", "", kvs), Joined(k + ["="] + v)) ==
      if Refuses(len, k) || Refuses(len, v) then Failed else At(ModeAfter(InVal, v), Joined(k), Joined(v), kvs)
  {
    hide Run, Step, Unit, Units, SeparatorUnit, Refuses, Joined, Filled, CutOff, ModeAfter;
    var q := At(InKey, "", "", kvs);
    JoinedJoin(k + ["="], v);
    JoinedJoin(k, ["="]);
    JoinedOne("=");
    RunJoins(flags, len, q, Joined(k) + "=", Joined(v));
    RunJoins(flags, len, q, Joined(k), "=");
    ReadUnits(flags, len, q, k);
    FilledIs(len, "", kvs, k);
    KeyEnds(flags, len, kvs, k, Run(flags, len, q, Joined(k)));
    if Refuses(len, k) {
      FailedStays(flags, len, Joined(v));
    } else {
      ReadUnits(flags, len, At(InVal, Joined(k), "", kvs), v);
      FilledIs(len, Joined(k), kvs, v);
    }
  }

  /** A prefix and a suffix of units are units, and the prefix ends whole. */
  lemma {:induction false} UnitsPart(us: seq<string>, n: nat)
    requires Units(us) && n <= |us|
    ensures Units(us[..n]) && Units(us[n..]) && (n < |us| ==> Units(us[n + 1..]))
    ensures n < |us| ==> forall i :: 0 <= i < n ==> !CutOff(us[i])
  {
    forall i | 0 <= i < n ensures Unit(us[i], i == n - 1) && (n < |us| ==> !CutOff(us[i])) {
      UnitAnywhere(us[i], i == |us| - 1);
    }
  }

  /** The equals sign after a key that ended whole. */
  lemma {:induction false} KeyEnds(flags: Flags, len: nat, kvs: seq<Kv>, k: seq<string>, q: Machine)
    requires (forall i :: 0 <= i < |k| ==> !CutOff(k[i]))
    requires q == if Refuses(len, k) then Failed else At(ModeAfter(InKey, k), Joined(k), "", kvs)
    ensures Run(flags, len, q, "=") == if Refuses(len, k) then Failed else At(InVal, Joined(k), "", kvs)
  {
    hide CutOff, Refuses, Joined;
    RunOne(flags, len, q, '=');
    assert "=" == ['='];
  }

  /** What is left at the end of the query. */
  lemma {:induction false} FinishUnits(flags: Flags, len: nat, kvs: seq<Kv>, us: seq<string>)
    ensures Finish(flags, PieceState(len, kvs, us)) ==
      if PieceRefused(len, us) then None else Join(Some(kvs), LastOf(flags, UnitKey(us), UnitVal(us)))
  {
    assert kvs + [] == kvs;
    assert UpToNul("") == "";
    var n := EqualsAt(us);
    if n == |us| && us != [] && CutOff(us[|us| - 1]) {
      assert us[..n] == us;
      LastNotEmpty(us);
    }
    hide PieceRefused, Joined;
  }

  lemma {:induction false} LastNotEmpty(us: seq<string>)
    requires us != [] && CutOff(us[|us| - 1])
    ensures Joined(us) != ""
  {
    var init, u := us[..|us| - 1], us[|us| - 1];
    assert us == init + [u];
    JoinedJoin(init, [u]);
    JoinedOne(u);
  }

  /** What a separator makes of a piece that ended whole. */
  lemma {:induction false} PieceEnds(flags: Flags, len: nat, kvs: seq<Kv>, us: seq<string>, sep: string)
    requires SeparatorUnit(flags, sep) && forall i :: 0 <= i < |us| ==> !CutOff(us[i])
    ensures var q := Run(flags, len, PieceState(len, kvs, us), sep);
      var r := InnerOf(flags, UnitKey(us), UnitVal(us));
      q == if PieceRefused(len, us) || r.None? then Failed else At(InKey, "", "", kvs + r.value)
  {
    assert sep == [sep[0]];
    RunOne(flags, len, PieceState(len, kvs, us), sep[0]);
    hide CutOff, PieceRefused, Joined;
  }

  function Outcome(flags: Flags, len: nat, kvs: seq<Kv>, pieces: seq<seq<string>>): Option<seq<Kv>>
    requires pieces != []
  {
    if SomeRefused(len, pieces) then None else Join(Some(kvs), UnitReading(flags, pieces))
  }

  lemma {:induction false} OutcomeOne(flags: Flags, len: nat, kvs: seq<Kv>, us: seq<string>)
    ensures Outcome(flags, len, kvs, [us]) ==
      if PieceRefused(len, us) then None else Join(Some(kvs), LastOf(flags, UnitKey(us), UnitVal(us)))
  {
    assert [us][0] == us;
  }

  lemma {:induction false} OutcomeFirst(flags: Flags, len: nat, kvs: seq<Kv>, us: seq<string>, rest: seq<seq<string>>)
    requires rest != []
    ensures var r := InnerOf(flags, UnitKey(us), UnitVal(us));
      Outcome(flags, len, kvs, [us] + rest) ==
        if PieceRefused(len, us) || r.None? then None else Outcome(flags, len, kvs + r.value, rest)
  {
    hide PieceRefused, UnitKey, UnitVal;
    var ps := [us] + rest;
    assert ps[0] == us && ps[1..] == rest;
    assert forall i :: 0 <= i < |rest| ==> ps[i + 1] == rest[i];
    var r := InnerOf(flags, UnitKey(us), UnitVal(us));
    if i :| 0 <= i < |rest| && PieceRefused(len, rest[i]) {
      assert PieceRefused(len, ps[i + 1]);
    }
    if i :| 0 <= i < |ps| && PieceRefused(len, ps[i]) {
      assert i > 0 ==> PieceRefused(len, rest[i - 1]);
    }
    if r.Some? {
      JoinJoins(kvs, EntryOf(UnitKey(us), UnitVal(us)), UnitReading(flags, rest));
    }
  }

  /** From the start of a piece, the machine does what the pieces to come say. */
  lemma {:induction false} ReadsUnits(flags: Flags, len: nat, kvs: seq<Kv>, us: seq<string>)
    requires IgnoreHex !in flags && Units(us)
    ensures Finish(flags, Run(flags, len, At(InKey, "", "", kvs), Joined(us))) ==
      Outcome(flags, len, kvs, UnitPieces(flags, us))
    decreases |us|
  {
    hide Run, Step, Unit, SeparatorUnit, PieceState, Joined, Finish, Outcome, CutOff, PieceRefused, InnerOf, LastOf;
    var n := FirstSeparatorUnit(flags, us);
    var piece, q := us[..n], At(InKey, "", "", kvs);
    UnitsPart(us, n);
    ReadUnitPiece(flags, len, kvs, piece);
    if n == |us| {
      assert piece == us;
      FinishUnits(flags, len, kvs, us);
      OutcomeOne(flags, len, kvs, us);
    } else {
      var sep, rest := us[n], us[n + 1..];
      assert us == (piece + [sep]) + rest;
      JoinedJoin(piece + [sep], rest);
      JoinedJoin(piece, [sep]);
      JoinedOne(sep);
      RunJoins(flags, len, q, Joined(piece) + sep, Joined(rest));
      RunJoins(flags, len, q, Joined(piece), sep);
      PieceEnds(flags, len, kvs, piece, sep);
      OutcomeFirst(flags, len, kvs, piece, UnitPieces(flags, rest));
      var r := InnerOf(flags, UnitKey(piece), UnitVal(piece));
      if PieceRefused(len, piece) || r.None? {
        FailedStays(flags, len, Joined(rest));
        FinishFailed(flags);
      } else {
        ReadsUnits(flags, len, kvs + r.value, rest);
      }
    }
  }

  lemma {:induction false} FinishFailed(flags: Flags)
    ensures Finish(flags, Failed) == None
  {
  }

  /**
   Where escapes are looked at, the parser refuses exactly the queries in which some unit is refused or whose
   reading is, and reads every other as its units say.
   */
  lemma {:induction false} StrictParse(flags: Flags, query: string)
    requires IgnoreHex !in flags && !TooLong(|query|)
    ensures var pieces := UnitPieces(flags, UnitsOf(query));
      Parse(flags, query) == if SomeRefused(|query|, pieces) then None else UnitReading(flags, pieces)
  {
    UnitsOfIs(query);
    ReadsUnits(flags, |query|, [], UnitsOf(query));
    hide Run, Finish, UnitsOf, UnitPieces, SomeRefused;
    var r := UnitReading(flags, UnitPieces(flags, UnitsOf(query)));
    if r.Some? {
      assert [] + r.value == r.value;
    }
  }
}
