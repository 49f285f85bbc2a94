/**
 The row identifiers of the documentation's search page and the incremental search over them.
 JavaScript strings are sequences of UTF-16 code units.
 */
module SearchIds {

  type Unit = x: int | 0 <= x < 0x10000

  type Text = seq<Unit>

  const UNDERSCORE: Unit := 0x5F
  const SPACE: Unit := 0x20
  const SR: Text := [0x73, 0x72]

  predicate IsDigit(u: Unit) { 0x30 <= u <= 0x39 }

  /** The class [a-z0-9\u0080-\uFFFF]. */
  predicate KeptAsIs(u: Unit) {
    0x61 <= u <= 0x7A || IsDigit(u) || u >= 0x80
  }

  /** Number.prototype.toString(16). */
  function Hex(n: nat): (s: Text)
    ensures s != []
  {
    if n < 16 then [if n < 10 then 0x30 + n else 0x61 + n - 10] else Hex(n / 16) + Hex(n % 16)
  }

  function EncodeUnit(u: Unit): Text {
    if KeptAsIs(u) then [u]
    else if u < 16 then [UNDERSCORE, 0x30] + Hex(u)
    else [UNDERSCORE] + Hex(u)
  }

  function Encode(s: Text): Text {
    if s == [] then [] else EncodeUnit(s[0]) + Encode(s[1..])
  }

  lemma EncodeFrom(s: Text, i: nat)
    requires i < |s|
    ensures Encode(s[i..]) == EncodeUnit(s[i]) + Encode(s[i + 1..])
  {
    assert s[i..][1..] == s[i + 1..];
  }

  lemma AppendLater(a: Text, b: Text, c: Text)
    ensures a + (b + c) == (a + b) + c
  {
  }

  method ConvertToId(search: Text) returns (result: Text)
    ensures result == Encode(search)
  {
    result := [];
    for i := 0 to |search|
      invariant result + Encode(search[i..]) == Encode(search)
    {
      var c := search[i];
      EncodeFrom(search, i);
      AppendLater(result, EncodeUnit(c), Encode(search[i + 1..]));
      if KeptAsIs(c) {
        result := result + [c];
      } else if c < 16 {
        result := result + ([UNDERSCORE, 0x30] + Hex(c));
      } else {
        result := result + ([UNDERSCORE] + Hex(c));
      }
    }
  }

  // ---------------------------------------------------------------- the code is self-delimiting

  /** What the digits 0 to 9 and a to f stand for. */
  function HexValue(digit: Unit): int {
    if IsDigit(digit) then digit - 0x30 else digit - 0x61 + 10
  }

  /**
   A small letter, a digit or a unit beyond ASCII becomes itself; any other becomes an underscore and the
   two hexadecimal digits of its number.
   */
  lemma CodeShape(u: Unit)
    ensures KeptAsIs(u) <==> 0x61 <= u <= 0x7A || 0x30 <= u <= 0x39 || u >= 0x80
    ensures KeptAsIs(u) ==> EncodeUnit(u) == [u] && u != UNDERSCORE
    ensures !KeptAsIs(u) ==> EncodeUnit(u) == [UNDERSCORE, Hex(u / 16)[0], Hex(u % 16)[0]]
    ensures !KeptAsIs(u) ==> u / 16 < 16 && |Hex(u / 16)| == 1 && |Hex(u % 16)| == 1
    ensures !KeptAsIs(u) ==>
      var code := EncodeUnit(u);
      && u == 16 * HexValue(code[1]) + HexValue(code[2])
      && forall i :: 1 <= i < 3 ==> IsDigit(code[i]) || 0x61 <= code[i] <= 0x66
  {
    if !KeptAsIs(u) && u >= 16 {
      assert Hex(u) == Hex(u / 16) + Hex(u % 16);
    }
  }

  lemma HexDigitInjective(m: nat, n: nat)
    requires m < 16 && n < 16 && Hex(m)[0] == Hex(n)[0]
    ensures m == n
  {
  }

  /** No code word is the beginning of another: two words at the start of one text are the same unit. */
  lemma CodePrefixFree(u: Unit, v: Unit, a: Text, b: Text)
    requires EncodeUnit(u) + a <= EncodeUnit(v) + b
    ensures u == v && a <= b
  {
    CodeShape(u);
    CodeShape(v);
    var x, y := EncodeUnit(u), EncodeUnit(v);
    assert (x + a)[0] == (y + b)[0];
    if !KeptAsIs(u) {
      assert (x + a)[1] == (y + b)[1] && (x + a)[2] == (y + b)[2];
      HexDigitInjective(u / 16, v / 16);
      HexDigitInjective(u % 16, v % 16);
      assert u == 16 * (u / 16) + u % 16 && v == 16 * (v / 16) + v % 16;
    }
    assert x == y;
    assert (x + a)[|x|..] == a && (y + b)[|x|..] == b;
  }

  lemma HeadAndTail(p: Text, t: Text)
    requires p != [] && t != []
    ensures p <= t <==> p[0] == t[0] && p[1..] <= t[1..]
  {
    assert p == [p[0]] + p[1..] && t == [t[0]] + t[1..];
  }

  lemma SameHead(x: Text, a: Text, b: Text)
    ensures x + a <= x + b <==> a <= b
  {
    assert (x + a)[|x|..] == a && (x + b)[|x|..] == b;
  }

  lemma EncodeNonempty(s: Text)
    ensures s != [] ==> Encode(s) != []
  {
    if s != [] { CodeShape(s[0]); }
  }

  /** The encoded prefix test is the plain prefix test. */
  lemma {:induction false} EncodedPrefix(p: Text, t: Text)
    ensures Encode(p) <= Encode(t) <==> p <= t
  {
    EncodeNonempty(p);
    if p == [] || t == [] {
    } else {
      EncodedPrefix(p[1..], t[1..]);
      HeadAndTail(p, t);
      if p[0] == t[0] {
        SameHead(EncodeUnit(p[0]), Encode(p[1..]), Encode(t[1..]));
      } else if Encode(p) <= Encode(t) {
        CodePrefixFree(p[0], t[0], Encode(p[1..]), Encode(t[1..]));
      }
    }
  }

  lemma EncodeInjective(s: Text, t: Text)
    ensures Encode(s) == Encode(t) ==> s == t
  {
    EncodedPrefix(s, t);
    EncodedPrefix(t, s);
  }

  // ---------------------------------------------------------------- the search

  function StripLeading(s: Text): Text {
    if s != [] && s[0] == SPACE then StripLeading(s[1..]) else s
  }

  function StripTrailing(s: Text): Text {
    if s != [] && s[|s| - 1] == SPACE then StripTrailing(s[..|s| - 1]) else s
  }

  function AfterDigits(s: Text): Text {
    if s != [] && IsDigit(s[0]) then AfterDigits(s[1..]) else s
  }

  /** Removes what /^sr\d*_/ matches. */
  function StripRowPrefix(id: Text): Text {
    if SR <= id then
      var rest := AfterDigits(id[2..]);
      if rest != [] && rest[0] == UNDERSCORE then rest[1..] else id
    else id
  }

  function Spaces(n: nat): Text {
    seq(n, i => SPACE)
  }

  predicate Trimmed(s: Text) {
    s != [] ==> s[0] != SPACE && s[|s| - 1] != SPACE
  }

  lemma {:induction false} StripLeadingMeaning(s: Text) returns (n: nat)
    ensures s == Spaces(n) + StripLeading(s)
    ensures StripLeading(s) != [] ==> StripLeading(s)[0] != SPACE
  {
    n := 0;
    if s == [] || s[0] != SPACE {
    } else {
      var m := StripLeadingMeaning(s[1..]);
      n := m + 1;
      assert s == [SPACE] + s[1..];
      assert Spaces(n) == [SPACE] + Spaces(m);
    }
  }

  lemma {:induction false} StripTrailingMeaning(s: Text) returns (n: nat)
    ensures s == StripTrailing(s) + Spaces(n)
    ensures StripTrailing(s) != [] ==> StripTrailing(s)[|StripTrailing(s)| - 1] != SPACE
  {
    n := 0;
    if s == [] || s[|s| - 1] != SPACE {
    } else {
      var m := StripTrailingMeaning(s[..|s| - 1]);
      n := m + 1;
      assert s == s[..|s| - 1] + [SPACE];
      assert Spaces(n) == Spaces(m) + [SPACE];
    }
  }

  /** Stripping takes spaces off both ends, all of them and nothing else. */
  lemma StripMeaning(s: Text)
    ensures var t := StripTrailing(StripLeading(s));
      Trimmed(t) && exists m: nat, n: nat :: s == Spaces(m) + t + Spaces(n)
  {
    var u := StripLeading(s);
    var m := StripLeadingMeaning(s);
    var n := StripTrailingMeaning(u);
    var t := StripTrailing(u);
    if t != [] { assert t[0] == u[0]; }
    assert s == Spaces(m) + t + Spaces(n);
  }

  /** A text made of a trimmed part between spaces is stripped to that part. */
  lemma StripIs(m: nat, t: Text, n: nat)
    requires Trimmed(t)
    ensures StripTrailing(StripLeading(Spaces(m) + t + Spaces(n))) == t
  {
    assert Spaces(m) + t + Spaces(n) == Spaces(m) + (t + Spaces(n));
    LeadingSkipped(m, t + Spaces(n));
    if t == [] {
      assert t + Spaces(n) == Spaces(n) == Spaces(n) + [];
      LeadingSkipped(n, []);
    } else {
      assert (t + Spaces(n))[0] == t[0];
      TrailingSkipped(t, n);
    }
  }

  lemma {:induction false} LeadingSkipped(m: nat, t: Text)
    ensures StripLeading(Spaces(m) + t) == StripLeading(t)
  {
    if m == 0 {
      assert Spaces(m) + t == t;
    } else {
      assert (Spaces(m) + t)[1..] == Spaces(m - 1) + t;
      LeadingSkipped(m - 1, t);
    }
  }

  lemma {:induction false} TrailingSkipped(t: Text, n: nat)
    ensures StripTrailing(t + Spaces(n)) == StripTrailing(t)
  {
    if n == 0 {
      assert t + Spaces(n) == t;
    } else {
      var s := t + Spaces(n);
      assert s[..|s| - 1] == t + Spaces(n - 1);
      TrailingSkipped(t, n - 1);
    }
  }

  lemma {:induction false} DigitsSkipped(digits: Text, rest: Text)
    requires (forall i :: 0 <= i < |digits| ==> IsDigit(digits[i])) && (rest != [] ==> !IsDigit(rest[0]))
    ensures AfterDigits(digits + rest) == rest
  {
    if digits == [] {
      assert digits + rest == rest;
    } else {
      assert (digits + rest)[1..] == digits[1..] + rest;
      DigitsSkipped(digits[1..], rest);
    }
  }

  /** A prefix of sr, digits and an underscore is removed, and nothing behind it. */
  lemma RowPrefixStripped(digits: Text, name: Text)
    requires forall i :: 0 <= i < |digits| ==> IsDigit(digits[i])
    ensures StripRowPrefix(SR + (digits + ([UNDERSCORE] + name))) == name
  {
    var id := SR + (digits + ([UNDERSCORE] + name));
    assert id[2..] == digits + ([UNDERSCORE] + name);
    DigitsSkipped(digits, [UNDERSCORE] + name);
    assert ([UNDERSCORE] + name)[1..] == name;
  }

  /** What is left of the digits at the front. */
  lemma {:induction false} AfterDigitsMeaning(s: Text) returns (digits: Text)
    ensures s == digits + AfterDigits(s) && forall i :: 0 <= i < |digits| ==> IsDigit(digits[i])
  {
    digits := [];
    if s == [] || !IsDigit(s[0]) {
    } else {
      var later := AfterDigitsMeaning(s[1..]);
      digits := [s[0]] + later;
      assert s == [s[0]] + s[1..];
    }
  }

  /** An identifier that does not start in that way is left as it is. */
  lemma RowPrefixOnly(id: Text)
    ensures StripRowPrefix(id) == id || exists digits: Text ::
      && (forall i :: 0 <= i < |digits| ==> IsDigit(digits[i]))
      && id == SR + (digits + ([UNDERSCORE] + StripRowPrefix(id)))
  {
    if StripRowPrefix(id) != id {
      var digits := AfterDigitsMeaning(id[2..]);
      var rest := AfterDigits(id[2..]);
      assert rest == [UNDERSCORE] + StripRowPrefix(id);
      assert id == SR + id[2..];
      assert id == SR + (digits + ([UNDERSCORE] + StripRowPrefix(id)));
    }
  }

  datatype Display = Unset | Block | Hidden

  class Row {
    const className: string
    const id: Text
    var display: Display

    constructor (className: string, id: Text)
      ensures this.className == className && this.id == id && display == Unset
    {
      this.className, this.id, display := className, id, Unset;
    }
  }

  /** What is searched for: the text typed, or the query of the page's address, trimmed and lowered. */
  function Wanted(typed: Text, address: Text, lower: Text -> Text): Text {
    lower(StripTrailing(StripLeading(if typed == [] then address else typed)))
  }

  function Query(typed: Text, address: Text, lower: Text -> Text): Text {
    Encode(Wanted(typed, address, lower))
  }

  predicate RowMatches(id: Text, query: Text, lower: Text -> Text) {
    query <= StripRowPrefix(lower(id))
  }

  /** How a row is displayed after a search. */
  function Verdict(className: string, id: Text, before: Display, query: Text, lower: Text -> Text): Display {
    if className != "SRResult" then before
    else if RowMatches(id, query, lower) then Block
    else Hidden
  }

  /** The shown rows among the first n. */
  ghost function Shown(rows: seq<Row>, n: nat, query: Text, lower: Text -> Text): nat
    requires n <= |rows|
  {
    if n == 0 then 0
    else
      Shown(rows, n - 1, query, lower)
      + if rows[n - 1].className == "SRResult" && RowMatches(rows[n - 1].id, query, lower) then 1 else 0
  }

  lemma NoDigits(code: Text)
    ensures SR + [UNDERSCORE] + code == SR + ([] + ([UNDERSCORE] + code))
  {
  }

  lemma RowStripped(wanted: Text, name: Text, id: Text, lower: Text -> Text)
    requires lower(id) == SR + [UNDERSCORE] + Encode(name)
    ensures RowMatches(id, Encode(wanted), lower) <==> wanted <= name
  {
    NoDigits(Encode(name));
    RowPrefixStripped([], Encode(name));
    EncodedPrefix(wanted, name);
  }

  /** A row is shown exactly when its name starts with the query, if its lowered identifier is the name's code. */
  lemma RowShownByLoweredId(typed: Text, address: Text, name: Text, id: Text, lower: Text -> Text)
    requires lower(id) == SR + [UNDERSCORE] + Encode(lower(name))
    ensures RowMatches(id, Query(typed, address, lower), lower) <==> Wanted(typed, address, lower) <= lower(name)
  {
    RowStripped(Wanted(typed, address, lower), lower(name), id, lower);
  }

  // ---------------------------------------------------------------- the identifiers the page builds

  const SR_PREFIX: Text := [0x53, 0x52, UNDERSCORE]

  predicate IsCapital(u: Unit) { 0x41 <= u <= 0x5A }

  /** Lowering of the ASCII letters alone. */
  function AsciiLower(s: Text): Text {
    seq(|s|, i requires 0 <= i < |s| => if IsCapital(s[i]) then s[i] + 0x20 else s[i])
  }

  /**
   All that is assumed of toLowerCase: it lowers ASCII letters one by one in every text whose other units
   are stable, that is, units beyond ASCII that it leaves alone.
   */
  ghost predicate LowersAscii(lower: Text -> Text, stable: Unit -> bool) {
    forall s: Text :: StableBeyondAscii(s, stable) ==> lower(s) == AsciiLower(s)
  }

  predicate StableBeyondAscii(s: Text, stable: Unit -> bool) {
    forall i :: 0 <= i < |s| && s[i] >= 0x80 ==> stable(s[i])
  }

  /** The code of a text holds no capital, and beyond ASCII only units of the text. */
  lemma {:induction false} EncodeUnits(s: Text, u: Unit)
    requires u in Encode(s)
    ensures !IsCapital(u) && (u >= 0x80 ==> u in s)
  {
    CodeShape(s[0]);
    if u in EncodeUnit(s[0]) && KeptAsIs(s[0]) {
      assert u == s[0];
    } else if u in EncodeUnit(s[0]) {
      HexUnit(s[0] / 16);
      HexUnit(s[0] % 16);
    } else {
      EncodeUnits(s[1..], u);
      assert s == [s[0]] + s[1..];
    }
  }

  lemma HexUnit(n: nat)
    requires n < 16
    ensures IsDigit(Hex(n)[0]) || 0x61 <= Hex(n)[0] <= 0x66
  {
  }

  /** Lowering the identifier of a row leaves the code in it alone. */
  lemma RowIdLowered(t: Text, lower: Text -> Text, stable: Unit -> bool)
    requires LowersAscii(lower, stable) && StableBeyondAscii(t, stable)
    ensures lower(SR_PREFIX + Encode(t)) == SR + [UNDERSCORE] + Encode(t)
  {
    var id := SR_PREFIX + Encode(t);
    forall i | 3 <= i < |id| ensures !IsCapital(id[i]) && (id[i] >= 0x80 ==> stable(id[i])) {
      assert id[i] == Encode(t)[i - 3];
      EncodeUnits(t, id[i]);
    }
    assert StableBeyondAscii(id, stable);
    assert AsciiLower(id) == SR + [UNDERSCORE] + Encode(t);
  }

  /**
   A row built from a name is shown exactly when the lowered name starts with the lowered, trimmed query,
   provided that lowering leaves the lowered name's units beyond ASCII alone.
   */
  lemma RowShownIffNameStarts(typed: Text, address: Text, name: Text, lower: Text -> Text, stable: Unit -> bool)
    requires LowersAscii(lower, stable) && StableBeyondAscii(lower(name), stable)
    ensures RowMatches(SR_PREFIX + Encode(lower(name)), Query(typed, address, lower), lower) <==>
      Wanted(typed, address, lower) <= lower(name)
  {
    RowIdLowered(lower(name), lower, stable);
    RowShownByLoweredId(typed, address, name, SR_PREFIX + Encode(lower(name)), lower);
  }

  // ---------------------------------------------------------------- the search function of the page

  /** The row is displayed exactly when the lowered name it was built from starts with the lowered text. */
  ghost predicate ShowsNames(row: Row, t: Text, lower: Text -> Text)
    reads row
  {
    && (row.display == Block || row.display == Hidden)
    && forall name: Text, stable: Unit -> bool | LowersAscii(lower, stable) && StableBeyondAscii(lower(name), stable) ::
         row.id == SR_PREFIX + Encode(lower(name)) ==> (row.display == Block <==> lower(t) <= lower(name))
  }

  lemma ShownByName(row: Row, t: Text, search: Text, lower: Text -> Text)
    requires search == Encode(lower(t))
    requires row.display == if RowMatches(row.id, search, lower) then Block else Hidden
    ensures ShowsNames(row, t, lower)
  {
    forall name: Text, stable: Unit -> bool |
      LowersAscii(lower, stable) && StableBeyondAscii(lower(name), stable) && row.id == SR_PREFIX + Encode(lower(name))
      ensures row.display == Block <==> lower(t) <= lower(name)
    {
      RowIdLowered(lower(name), lower, stable);
      RowStripped(lower(t), lower(name), row.id, lower);
    }
  }

  /** The result rows displayed, among the first n. */
  ghost function ShownNow(rows: seq<Row>, n: nat): nat
    requires n <= |rows|
    reads rows
  {
    if n == 0 then 0
    else ShownNow(rows, n - 1) + if rows[n - 1].className == "SRResult" && rows[n - 1].display == Block then 1 else 0
  }

  lemma {:induction false} CountShown(rows: seq<Row>, n: nat, query: Text, lower: Text -> Text)
    requires n <= |rows|
    requires forall i :: 0 <= i < n && rows[i].className == "SRResult" ==>
      rows[i].display == if RowMatches(rows[i].id, query, lower) then Block else Hidden
    ensures ShownNow(rows, n) == Shown(rows, n, query, lower)
  {
    if n == 0 {
    } else {
      CountShown(rows, n - 1, query, lower);
    }
  }

  class SearchResults {
    var lastMatchCount: nat
    var searching: Display
    var noMatches: Display

    constructor ()
      ensures lastMatchCount == 0
    {
      lastMatchCount, searching, noMatches := 0, Unset, Unset;
    }

    /** The body of the row loop: show or hide one row. */
    method Judge(row: Row, search: Text, lower: Text -> Text) returns (matched: bool)
      modifies row
      ensures row.display == Verdict(row.className, row.id, old(row.display), search, lower)
      ensures matched == (row.className == "SRResult" && RowMatches(row.id, search, lower))
    {
      matched := false;
      if row.className == "SRResult" {
        var name := StripRowPrefix(lower(row.id));
        if |search| <= |name| && name[..|search|] == search {
          row.display := Block;
          matched := true;
        } else {
          row.display := Hidden;
        }
      }
    }

    /** The row loop: every row is judged, and the matches are counted. */
    method JudgeRows(rows: seq<Row>, search: Text, lower: Text -> Text) returns (matches: nat)
      requires forall i, j :: 0 <= i < j < |rows| ==> rows[i] != rows[j]
      modifies rows
      ensures matches == Shown(rows, |rows|, search, lower)
      ensures forall i :: 0 <= i < |rows| ==>
        rows[i].display == Verdict(rows[i].className, rows[i].id, old(rows[i].display), search, lower)
    {
      matches := 0;
      for i := 0 to |rows|
        invariant matches == Shown(rows, i, search, lower)
        invariant forall k :: i <= k < |rows| ==> rows[k].display == old(rows[k].display)
        invariant forall k :: 0 <= k < i ==>
          rows[k].display == Verdict(rows[k].className, rows[k].id, old(rows[k].display), search, lower)
      {
        var matched := Judge(rows[i], search, lower);
        if matched { matches := matches + 1; }
      }
    }

    /** `lower` stands for String.prototype.toLowerCase. */
    method Search(typed: Text, address: Text, rows: seq<Row>, lower: Text -> Text)
      requires forall i, j :: 0 <= i < j < |rows| ==> rows[i] != rows[j]
      modifies this, rows
      ensures var query := Query(typed, address, lower);
        && lastMatchCount == Shown(rows, |rows|, query, lower)
        && searching == Hidden && noMatches == (if lastMatchCount == 0 then Block else Hidden)
        && forall i :: 0 <= i < |rows| ==>
             rows[i].display == Verdict(rows[i].className, rows[i].id, old(rows[i].display), query, lower)
      ensures forall i :: 0 <= i < |rows| && rows[i].className != "SRResult" ==> rows[i].display == old(rows[i].display)
      ensures lastMatchCount == ShownNow(rows, |rows|)
      ensures forall m: nat, t: Text, n: nat :: typed != [] && typed == Spaces(m) + t + Spaces(n) && Trimmed(t) ==>
        forall i :: 0 <= i < |rows| && rows[i].className == "SRResult" ==> ShowsNames(rows[i], t, lower)
      ensures forall m: nat, t: Text, n: nat :: typed == [] && address == Spaces(m) + t + Spaces(n) && Trimmed(t) ==>
        forall i :: 0 <= i < |rows| && rows[i].className == "SRResult" ==> ShowsNames(rows[i], t, lower)
    {
      var search := if typed == [] then address else typed;
      search := lower(StripTrailing(StripLeading(search)));
      search := ConvertToId(search);
      var matches := JudgeRows(rows, search, lower);
      searching := Hidden;
      noMatches := if matches == 0 then Block else Hidden;
      lastMatchCount := matches;
      CountShown(rows, |rows|, search, lower);
      forall t: Text | search == Encode(lower(t)), i | 0 <= i < |rows| && rows[i].className == "SRResult"
        ensures ShowsNames(rows[i], t, lower)
      {
        ShownByName(rows[i], t, search, lower);
      }
      forall m: nat, t: Text, n: nat | Trimmed(t) ensures StripTrailing(StripLeading(Spaces(m) + t + Spaces(n))) == t {
        StripIs(m, t, n);
      }
    }
  }
}
