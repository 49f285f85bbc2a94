/**
 Numbers with an SI suffix, as typed into the application: "12", "-3 MB", "5kib".

 The specification functions compute with unbounded integers; the methods compute modulo 2^64 with
 overflow flags, as the source does, and are proved to agree with them.  Strings are C strings, so
 they hold no NUL.
 */
module NumericSuffix {
  import opened Wrappers
  import opened Words
  import opened Digits

  function LowerChar(c: char): char {
    if 'A' <= c <= 'Z' then c - 'A' + 'a' else c
  }

  function Lower(s: string): string {
    seq(|s|, i requires 0 <= i < |s| => LowerChar(s[i]))
  }

  function Take(s: string, n: nat): string {
    if n <= |s| then s[..n] else s
  }

  /** strncasecmp(a, b, n) == 0 on strings without NUL. */
  predicate SameIgnoringCase(a: string, b: string, n: nat) {
    Lower(Take(a, n)) == Lower(Take(b, n))
  }

  const DECIMAL_SUFFIXES: seq<string> := ["k", "m", "g", "t", "p", "e", "z", "y"]
  const BINARY_SUFFIXES: seq<string> := ["ki", "mi", "gi", "ti", "pi", "ei", "zi", "yi"]

  // ---------------------------------------------------------------- what a suffix means

  function SkipSpaces(s: string): string {
    if s != "" && s[0] == ' ' then SkipSpaces(s[1..]) else s
  }

  function DropTrailingSpaces(s: string): string {
    if s != "" && s[|s| - 1] == ' ' then DropTrailingSpaces(s[..|s| - 1]) else s
  }

  /** Spaces trimmed, then at most one trailing b dropped. */
  function Core(s: string): string {
    var t := DropTrailingSpaces(SkipSpaces(s));
    if t != "" && t[|t| - 1] in "bB" then t[..|t| - 1] else t
  }

  predicate OnlySpaces(s: string) {
    forall i :: 0 <= i < |s| ==> s[i] == ' '
  }

  lemma {:induction false} SkipSpacesMeaning(front: string, s: string)
    requires OnlySpaces(front) && (s != "" ==> s[0] != ' ')
    ensures SkipSpaces(front + s) == s
  {
    if front == "" {
      assert front + s == s;
    } else {
      assert (front + s)[1..] == front[1..] + s;
      SkipSpacesMeaning(front[1..], s);
    }
  }

  lemma {:induction false} DropSpacesMeaning(s: string, back: string)
    requires OnlySpaces(back) && (s != "" ==> s[|s| - 1] != ' ')
    ensures DropTrailingSpaces(s + back) == s
  {
    if back == "" {
      assert s + back == s;
    } else {
      assert (s + back)[..|s + back| - 1] == s + back[..|back| - 1];
      DropSpacesMeaning(s, back[..|back| - 1]);
    }
  }

  /** Spaces around a suffix do not matter, nor does one b behind it, even when there is nothing else. */
  lemma CoreMeaning(front: string, word: string, back: string)
    requires OnlySpaces(front) && OnlySpaces(back) && (word != "" ==> word[0] != ' ')
    ensures word == "" || word[|word| - 1] !in " bB" ==> Core(front + (word + back)) == word
    ensures Core(front + (word + "b" + back)) == word && Core(front + (word + "B" + back)) == word
  {
    if word == "" {
      assert word + back == back;
      AllSpaces(front, back);
    } else if word[|word| - 1] !in " bB" {
      SkipSpacesMeaning(front, word + back);
      DropSpacesMeaning(word, back);
    }
    BehindWord(front, word, "b", back);
    BehindWord(front, word, "B", back);
  }

  lemma AllSpaces(front: string, back: string)
    requires OnlySpaces(front) && OnlySpaces(back)
    ensures Core(front + back) == ""
  {
    assert front + back == (front + back) + "";
    SkipSpacesMeaning(front + back, "");
  }

  lemma BehindWord(front: string, word: string, b: string, back: string)
    requires OnlySpaces(front) && OnlySpaces(back) && (word != "" ==> word[0] != ' ')
    requires b == "b" || b == "B"
    ensures Core(front + (word + b + back)) == word
  {
    assert (word + b)[..|word + b| - 1] == word;
    SkipSpacesMeaning(front, (word + b) + back);
    DropSpacesMeaning(word + b, back);
  }

  /** The power belonging to a table entry, from position i on. */
  function LookUp(t: string, table: seq<string>, base: nat, i: nat): Option<nat>
    requires i <= |table|
    decreases |table| - i
  {
    if i == |table| then None
    else if Lower(t) == table[i] then Some(Pow(base, i + 1))
    else LookUp(t, table, base, i + 1)
  }

  /** The factor a suffix stands for, as a true integer. */
  function Multiplier(s: string): Option<nat> {
    var t := Core(s);
    if t == "" then Some(1)
    else if LookUp(t, DECIMAL_SUFFIXES, 1000, 0).Some? then LookUp(t, DECIMAL_SUFFIXES, 1000, 0)
    else LookUp(t, BINARY_SUFFIXES, 1024, 0)
  }

  lemma DecimalTable(t: string)
    ensures LookUp(t, DECIMAL_SUFFIXES, 1000, 0).Some? <==> Lower(t) in DECIMAL_SUFFIXES
    ensures forall i :: 0 <= i < 8 && Lower(t) == DECIMAL_SUFFIXES[i] ==>
      LookUp(t, DECIMAL_SUFFIXES, 1000, 0) == Some(Pow(1000, i + 1))
  {
    LookUpFinds(t, DECIMAL_SUFFIXES, 1000, 0);
  }

  lemma WordLengths(i: nat)
    requires i < 8
    ensures |DECIMAL_SUFFIXES[i]| == 1 && |BINARY_SUFFIXES[i]| == 2
  {
  }

  lemma WordsOfLength(w: string)
    ensures w in DECIMAL_SUFFIXES ==> |w| == 1
    ensures w in BINARY_SUFFIXES ==> |w| == 2
  {
    forall i | 0 <= i < 8 ensures |DECIMAL_SUFFIXES[i]| == 1 && |BINARY_SUFFIXES[i]| == 2 { WordLengths(i); }
  }

  lemma BinaryTable(t: string)
    ensures LookUp(t, BINARY_SUFFIXES, 1024, 0).Some? <==> Lower(t) in BINARY_SUFFIXES
    ensures forall i :: 0 <= i < 8 && Lower(t) == BINARY_SUFFIXES[i] ==>
      LookUp(t, BINARY_SUFFIXES, 1024, 0) == Some(Pow(1024, i + 1)) && Lower(t) !in DECIMAL_SUFFIXES
  {
    LookUpFinds(t, BINARY_SUFFIXES, 1024, 0);
    WordsOfLength(Lower(t));
  }

  /** A nonempty core has a factor exactly when, case ignored, it is one of the sixteen suffixes. */
  lemma MultiplierTable(s: string)
    ensures Multiplier(s).Some? <==>
      Core(s) == "" || Lower(Core(s)) in DECIMAL_SUFFIXES || Lower(Core(s)) in BINARY_SUFFIXES
    ensures Core(s) == "" ==> Multiplier(s) == Some(1)
    ensures forall i :: 0 <= i < 8 && Lower(Core(s)) == DECIMAL_SUFFIXES[i] ==>
      Multiplier(s) == Some(Pow(1000, i + 1))
    ensures forall i :: 0 <= i < 8 && Lower(Core(s)) == BINARY_SUFFIXES[i] ==>
      Multiplier(s) == Some(Pow(1024, i + 1))
  {
    DecimalTable(Core(s));
    BinaryTable(Core(s));
    WordsOfLength(Lower(Core(s)));
  }

  /** Nothing but spaces, or a b between spaces, stands for single bytes. */
  lemma BytesCountOnce(front: string, back: string)
    requires OnlySpaces(front) && OnlySpaces(back)
    ensures Multiplier(front + back) == Some(1)
    ensures Multiplier(front + ("b" + back)) == Some(1) && Multiplier(front + ("B" + back)) == Some(1)
  {
    CoreMeaning(front, "", back);
    assert "" + back == back && "" + "b" == "b" && "" + "B" == "B";
  }

  const CAPITALS: seq<char> := ['K', 'M', 'G', 'T', 'P', 'E', 'Z', 'Y']

  /** The suffixes in every mixture of capitals and small letters: "K" and "k", "KI", "Ki", "kI" and "ki". */
  lemma CaseDoesNotMatter(i: nat, s: string)
    requires i < 8
    ensures Core(s) == [CAPITALS[i]] || Core(s) == DECIMAL_SUFFIXES[i] ==> Multiplier(s) == Some(Pow(1000, i + 1))
    ensures var t := Core(s);
      |t| == 2 && (t[..1] == [CAPITALS[i]] || t[..1] == DECIMAL_SUFFIXES[i]) && t[1] in "iI" ==>
        Multiplier(s) == Some(Pow(1024, i + 1))
  {
    MultiplierTable(s);
    WordLengths(i);
    LettersLowered(i);
  }

  lemma LettersLowered(i: nat)
    requires i < 8
    ensures |DECIMAL_SUFFIXES[i]| == 1 && BINARY_SUFFIXES[i] == DECIMAL_SUFFIXES[i] + "i"
    ensures LowerChar(CAPITALS[i]) == LowerChar(DECIMAL_SUFFIXES[i][0]) == DECIMAL_SUFFIXES[i][0]
    ensures LowerChar('I') == LowerChar('i') == 'i'
  {
  }

  predicate DistinctWords(table: seq<string>) {
    forall i, j :: 0 <= i < j < |table| ==> table[i] != table[j]
  }

  lemma {:induction false} LookUpFinds(t: string, table: seq<string>, base: nat, i: nat)
    requires i <= |table| && DistinctWords(table)
    ensures LookUp(t, table, base, i).Some? <==> exists k :: i <= k < |table| && Lower(t) == table[k]
    ensures forall k :: i <= k < |table| && Lower(t) == table[k] ==>
      LookUp(t, table, base, i) == Some(Pow(base, k + 1))
    decreases |table| - i
  {
    if i < |table| { LookUpFinds(t, table, base, i + 1); }
  }

  /** Of each eight suffixes the first six have factors that fit a word: exa fits, zetta does not. */
  lemma SuffixesThatFit(i: nat)
    requires i < 8
    ensures Pow(1000, i + 1) < MODULUS <==> i < 6
    ensures Pow(1024, i + 1) < MODULUS <==> i < 6
  {
    assert Pow(1000, 6) == 1000000000000000000 && Pow(1024, 6) == 0x1000_0000_0000_0000;
    assert Pow(1000, 7) == 1000 * Pow(1000, 6) && Pow(1024, 7) == 1024 * Pow(1024, 6);
    if i < 6 {
      PowGrows(1000, i + 1, 6);
      PowGrows(1024, i + 1, 6);
    } else {
      PowGrows(1000, 7, i + 1);
      PowGrows(1024, 7, i + 1);
    }
  }

  // ---------------------------------------------------------------- parseSuffixMultiplier

  lemma {:induction false} PowOver(base: nat, i: nat)
    requires base >= 2 && Pow(base, i) >= MODULUS
    ensures Pow(base, i + 1) >= MODULUS
  {
    PowGrows(base, i, i + 1);
  }

  lemma {:induction false} LookUpSkips(t: string, table: seq<string>, base: nat, i: nat)
    requires i <= |table| && forall k :: 0 <= k < i ==> Lower(t) != table[k]
    ensures LookUp(t, table, base, 0) == LookUp(t, table, base, i)
  {
    if i > 0 { LookUpSkips(t, table, base, i - 1); }
  }

  /** The result of a table loop: no entry, an entry whose factor overflows, or its factor. */
  function InWord(power: Option<nat>): Option<Option<U64>> {
    match power
    case None => None
    case Some(p) => Some(if p < MODULUS then Some(p) else None)
  }

  /** One of the two table loops: sticky overflow, wrapped product.  None: no entry matched. */
  method SearchTable(t: string, table: seq<string>, base: U64) returns (r: Option<Option<U64>>)
    requires base >= 2
    requires forall i :: 0 <= i < |table| ==> (SameIgnoringCase(t, table[i], |t|) <==> Lower(t) == table[i])
    ensures r == InWord(LookUp(t, table, base, 0))
  {
    var multiplier: U64, overflowed := 1, false;
    for i := 0 to |table|
      invariant forall k :: 0 <= k < i ==> Lower(t) != table[k]
      invariant overflowed <==> Pow(base, i) >= MODULUS
      invariant !overflowed ==> multiplier == Pow(base, i)
    {
      var product := WrapMul(multiplier, base);
      DivideBackExact(multiplier, base);
      if overflowed { PowOver(base, i); } else { assert Pow(base, i + 1) == multiplier * base; }
      overflowed := overflowed || product / base != multiplier;
      multiplier := product;
      if SameIgnoringCase(t, table[i], |t|) {
        LookUpSkips(t, table, base, i);
        return Some(if overflowed then None else Some(multiplier));
      }
    }
    LookUpSkips(t, table, base, |table|);
    return None;
  }

  /** The pointer arithmetic over leading spaces. */
  method TrimFront(s: string) returns (t: string)
    ensures t == SkipSpaces(s)
  {
    var start := 0;
    while start < |s| && s[start] == ' '
      invariant start <= |s| && SkipSpaces(s[start..]) == SkipSpaces(s)
    {
      assert s[start..][1..] == s[start + 1..];
      start := start + 1;
    }
    t := s[start..];
  }

  /** The length arithmetic over trailing spaces. */
  method TrimBack(m: string) returns (length: nat)
    ensures length <= |m| && m[..length] == DropTrailingSpaces(m)
  {
    length := |m|;
    assert m[..length] == m;
    while length > 0 && m[length - 1] == ' '
      invariant length <= |m| && DropTrailingSpaces(m[..length]) == DropTrailingSpaces(m)
    {
      assert m[..length][..length - 1] == m[..length - 1];
      length := length - 1;
    }
  }

  method TrimSuffix(s: string) returns (t: string)
    ensures t == Core(s)
  {
    var m := TrimFront(s);
    var length := TrimBack(m);
    if length > 0 && m[length - 1] in "bB" {
      assert m[..length][..length - 1] == m[..length - 1];
      length := length - 1;
    }
    t := m[..length];
  }

  lemma DecimalTableExact(t: string)
    requires t != ""
    ensures forall i :: 0 <= i < 8 ==>
      (SameIgnoringCase(t, DECIMAL_SUFFIXES[i], |t|) <==> Lower(t) == DECIMAL_SUFFIXES[i])
  {
    forall i | 0 <= i < 8 ensures SameIgnoringCase(t, DECIMAL_SUFFIXES[i], |t|) <==> Lower(t) == DECIMAL_SUFFIXES[i] {
      SingleLetter(t, DECIMAL_SUFFIXES[i]);
    }
  }

  lemma BinaryTableExact(t: string)
    requires t != "" && forall i :: 0 <= i < 8 ==> Lower(t) != DECIMAL_SUFFIXES[i]
    ensures forall i :: 0 <= i < 8 ==>
      (SameIgnoringCase(t, BINARY_SUFFIXES[i], |t|) <==> Lower(t) == BINARY_SUFFIXES[i])
  {
    forall i | 0 <= i < 8 ensures SameIgnoringCase(t, BINARY_SUFFIXES[i], |t|) <==> Lower(t) == BINARY_SUFFIXES[i] {
      assert Lower(t) != DECIMAL_SUFFIXES[i];
      TwoLetters(t, DECIMAL_SUFFIXES[i], BINARY_SUFFIXES[i]);
    }
  }

  method SearchDecimal(t: string) returns (r: Option<Option<U64>>)
    requires t != ""
    ensures r == InWord(LookUp(t, DECIMAL_SUFFIXES, 1000, 0))
  {
    DecimalTableExact(t);
    r := SearchTable(t, DECIMAL_SUFFIXES, 1000);
  }

  method SearchBinary(t: string) returns (r: Option<Option<U64>>)
    requires t != "" && LookUp(t, DECIMAL_SUFFIXES, 1000, 0).None?
    ensures r == InWord(LookUp(t, BINARY_SUFFIXES, 1024, 0))
  {
    LookUpFinds(t, DECIMAL_SUFFIXES, 1000, 0);
    BinaryTableExact(t);
    r := SearchTable(t, BINARY_SUFFIXES, 1024);
  }

  method ParseSuffixMultiplier(s: string) returns (r: Option<U64>)
    ensures r == match Multiplier(s)
                 case None => None
                 case Some(power) => if power < MODULUS then Some(power) else None
  {
    var t := TrimSuffix(s);
    if |t| == 0 { return Some(1); }
    var decimal := SearchDecimal(t);
    if decimal.Some? { return decimal.value; }
    var binary := SearchBinary(t);
    return if binary.Some? then binary.value else None;
  }

  lemma SingleLetter(t: string, word: string)
    requires |t| >= 1 && |word| == 1 && Lower(word) == word
    ensures SameIgnoringCase(t, word, |t|) <==> Lower(t) == word
  {
    assert Take(t, |t|) == t;
  }

  /** A one-letter prefix of a binary suffix is the decimal suffix, which was looked up before. */
  lemma TwoLetters(t: string, letter: string, word: string)
    requires |t| >= 1 && Lower(t) != letter && |letter| == 1 && word == letter + "i" && Lower(word) == word
    ensures SameIgnoringCase(t, word, |t|) <==> Lower(t) == word
  {
    assert Take(t, |t|) == t;
    if |t| == 1 {
      assert Take(word, 1) == letter;
      assert Lower(letter) == letter by { assert Lower(word)[0] == word[0]; }
    } else {
      assert Take(word, |t|) == word;
    }
  }

  // ---------------------------------------------------------------- the numeral

  predicate IsSpace(c: char) {
    c == ' ' || c == '\t' || c == '\n' || c == '\U{0B}' || c == '\U{0C}' || c == '\r'
  }

  /** The digit value of a character, or 36 when it is none. */
  function DigitOf(c: char): nat {
    if '0' <= c <= '9' then (c - '0') as nat
    else if 'a' <= c <= 'z' then (c - 'a') as nat + 10
    else if 'A' <= c <= 'Z' then (c - 'A') as nat + 10
    else 36
  }

  /** The value read and what is left of the string; `converted` is false when there was no numeral. */
  datatype Scan = Scan(value: nat, rest: string, converted: bool)

  function ScanDigits(base: nat, s: string, value: nat): Scan {
    if s != "" && DigitOf(s[0]) < base then ScanDigits(base, s[1..], value * base + DigitOf(s[0]))
    else Scan(value, s, true)
  }

  /**
   strtoull with base 0 (section 7.22.1.4 of ISO/IEC 9899:2011), on a string that starts with neither
   white space nor a minus sign, before its range check.
   */
  function ScanNumeral(s: string): Scan {
    var t := if s != "" && s[0] == '+' then s[1..] else s;
    if |t| > 2 && t[0] == '0' && t[1] in "xX" && DigitOf(t[2]) < 16 then ScanDigits(16, t[2..], 0)
    else if t != "" && t[0] == '0' then ScanDigits(8, t, 0)
    else if t != "" && DigitOf(t[0]) < 10 then ScanDigits(10, t, 0)
    else Scan(0, s, false)
  }

  /** White space and at most one minus sign; None after a second minus sign. */
  function SkipSigns(s: string, negative: bool): Option<(string, bool)> {
    if s == "" then Some((s, negative))
    else if IsSpace(s[0]) then SkipSigns(s[1..], negative)
    else if s[0] == '-' then if negative then None else SkipSigns(s[1..], true)
    else Some((s, negative))
  }

  /** Numeral, factor and sign as true integers; None when the text is malformed. */
  function Meaning(s: string, emptyNumeralFails: bool): Option<(nat, nat, bool)> {
    var signs := SkipSigns(s, false);
    if signs.None? then None
    else
      var scan := ScanNumeral(signs.value.0);
      var factor := if scan.rest == "" then Some(1) else Multiplier(scan.rest);
      if (!scan.converted && emptyNumeralFails) || factor.None? then None
      else Some((scan.value, factor.value, signs.value.1))
  }

  /**
   parseNumericStringWithSuffix.  C leaves open whether strtoull reports an error when there is no
   numeral at all; `emptyNumeralFails` says which.
   */
  method ParseNumericString(s: string, emptyNumeralFails: bool) returns (r: Option<(U64, bool)>)
    ensures r == match Meaning(s, emptyNumeralFails)
                 case None => None
                 case Some(m) =>
                   if m.0 < MODULUS && m.1 < MODULUS && m.0 * m.1 < MODULUS then Some((m.0 * m.1, m.2)) else None
  {
    var i, isNegative := 0, false;
    while true
      invariant i <= |s| && SkipSigns(s[i..], isNegative) == SkipSigns(s, false)
      decreases |s| - i
    {
      while i < |s| && IsSpace(s[i])
        invariant i <= |s| && SkipSigns(s[i..], isNegative) == SkipSigns(s, false)
      {
        assert s[i..][1..] == s[i + 1..];
        i := i + 1;
      }
      if i < |s| && s[i] == '-' {
        if isNegative { return None; }
        assert s[i..][1..] == s[i + 1..];
        isNegative := true;
        i := i + 1;
      } else {
        break;
      }
    }
    assert SkipSigns(s, false) == Some((s[i..], isNegative));
    var scan := ScanNumeral(s[i..]);
    if scan.value >= MODULUS || (!scan.converted && emptyNumeralFails) { return None; }
    var amount: U64, suffixMultiplier: U64 := scan.value, 1;
    if scan.rest != "" {
      var multiplier := ParseSuffixMultiplier(scan.rest);
      if multiplier.None? { return None; }
      suffixMultiplier := multiplier.value;
    }
    ProductTestExact(amount, suffixMultiplier);
    if !ProductDoesNotOverflow(amount, suffixMultiplier) { return None; }
    return Some((WrapMul(amount, suffixMultiplier), isNegative));
  }

  // ---------------------------------------------------------------- numerals written and read back

  function Digit(d: nat): char
    requires d < 16
  {
    if d < 10 then '0' + d as char else 'a' + (d - 10) as char
  }

  /** The numeral of n in a base, without leading zeros. */
  function Numeral(base: nat, n: nat): (s: string)
    requires 2 <= base <= 16
    ensures s != ""
    decreases n
  {
    if n < base then [Digit(n)] else Numeral(base, n / base) + [Digit(n % base)]
  }

  predicate StartsWithDigit(base: nat, s: string) {
    s != "" && DigitOf(s[0]) < base
  }

  lemma DigitBack(d: nat)
    requires d < 16
    ensures DigitOf(Digit(d)) == d && (d > 0 ==> Digit(d) != '0')
  {
  }

  lemma {:induction false} NumeralStart(base: nat, n: nat)
    requires 2 <= base <= 16
    ensures DigitOf(Numeral(base, n)[0]) < base
    ensures n > 0 ==> Numeral(base, n)[0] != '0'
    decreases n
  {
    if n < base {
      DigitBack(n);
    } else {
      DivideShrinks(n, base);
      NumeralStart(base, n / base);
    }
  }

  lemma DivideShrinks(n: nat, base: nat)
    requires 2 <= base <= n
    ensures 0 < n / base < n && n == (n / base) * base + n % base
  {
    MulMonotone(2, base, n / base);
    assert (n / base) * base == base * (n / base);
  }

  /** Scanning a numeral followed by anything reads the number and then goes on with what follows. */
  lemma {:induction false} ScanWritten(base: nat, n: nat, tail: string)
    requires 2 <= base <= 16
    ensures ScanDigits(base, Numeral(base, n) + tail, 0) == ScanDigits(base, tail, n)
    decreases n
  {
    if n < base {
      var s := Numeral(base, n) + tail;
      DigitBack(n);
      assert s[1..] == tail && s[0] == Digit(n);
    } else {
      DivideShrinks(n, base);
      var d := [Digit(n % base)];
      DigitBack(n % base);
      assert Numeral(base, n) + tail == Numeral(base, n / base) + (d + tail);
      ScanWritten(base, n / base, d + tail);
      assert (d + tail)[1..] == tail && (d + tail)[0] == Digit(n % base);
    }
  }

  /** Behind a zero a numeral is octal. */
  lemma OctalBehindZero(n: nat, tail: string)
    requires !StartsWithDigit(8, tail)
    ensures ScanNumeral("0" + (Numeral(8, n) + tail)) == Scan(n, tail, true)
  {
    var t := Numeral(8, n) + tail;
    var s := "0" + t;
    NumeralStart(8, n);
    ScanWritten(8, n, tail);
    assert s[1..] == t && s[1] == t[0] == Numeral(8, n)[0];
    assert ScanDigits(8, s, 0) == ScanDigits(8, t, 0);
  }

  /** Behind 0x or 0X a numeral is hexadecimal. */
  lemma HexadecimalBehindMark(n: nat, mark: string, tail: string)
    requires !StartsWithDigit(16, tail) && (mark == "0x" || mark == "0X")
    ensures ScanNumeral(mark + (Numeral(16, n) + tail)) == Scan(n, tail, true)
  {
    var t := Numeral(16, n) + tail;
    var s := mark + t;
    NumeralStart(16, n);
    ScanWritten(16, n, tail);
    assert s[0] == '0' && (s[1] == 'x' || s[1] == 'X') && s[2] == t[0] == Numeral(16, n)[0];
    assert s[2..] == t;
  }

  lemma SignSkipped(t: string, negative: bool)
    requires t != "" && !IsSpace(t[0]) && t[0] != '-'
    ensures SkipSigns((if negative then "-" else "") + t, false) == Some((t, negative))
  {
    if negative {
      var s := "-" + t;
      assert s[1..] == t;
      assert SkipSigns(t, true) == Some((t, true));
    } else {
      assert "" + t == t;
    }
  }

  predicate OnlyWhite(s: string) {
    forall i :: 0 <= i < |s| ==> IsSpace(s[i])
  }

  lemma {:induction false} WhiteSkipped(white: string, t: string, negative: bool)
    requires OnlyWhite(white)
    ensures SkipSigns(white + t, negative) == SkipSigns(t, negative)
  {
    if white == "" {
      assert white + t == t;
    } else {
      assert (white + t)[1..] == white[1..] + t;
      WhiteSkipped(white[1..], t, negative);
    }
  }

  /** White space may stand in front, before and behind one minus sign; a second minus sign is an error. */
  lemma SignsMeaning(front: string, mid: string, t: string)
    requires OnlyWhite(front) && OnlyWhite(mid) && (t != "" ==> !IsSpace(t[0]) && t[0] != '-')
    ensures SkipSigns(front + t, false) == Some((t, false))
    ensures SkipSigns(front + ("-" + (mid + t)), false) == Some((t, true))
    ensures SkipSigns(front + ("-" + (mid + ("-" + t))), false) == None
  {
    WhiteSkipped(front, t, false);
    WhiteSkipped(front, "-" + (mid + t), false);
    WhiteSkipped(front, "-" + (mid + ("-" + t)), false);
    WhiteSkipped(mid, t, true);
    WhiteSkipped(mid, "-" + t, true);
    assert ("-" + (mid + t))[1..] == mid + t;
    assert ("-" + (mid + ("-" + t)))[1..] == mid + ("-" + t);
  }

  lemma NumeralScanned(n: nat, suffix: string)
    requires !StartsWithDigit(10, suffix)
    requires n == 0 && suffix != "" ==> suffix[0] !in "xX"
    ensures ScanNumeral(Numeral(10, n) + suffix) == Scan(n, suffix, true)
  {
    var t := Numeral(10, n) + suffix;
    NumeralStart(10, n);
    assert t[0] == Numeral(10, n)[0];
    if n == 0 {
      assert t[1..] == suffix;
      assert ScanDigits(8, t, 0) == ScanDigits(8, suffix, 0);
    } else {
      ScanWritten(10, n, suffix);
    }
  }

  /** A numeral, optionally negated, and a suffix mean the number times the factor of the suffix. */
  lemma DecimalMeaning(n: nat, suffix: string, negative: bool, emptyNumeralFails: bool)
    requires !StartsWithDigit(10, suffix)
    requires n == 0 && suffix != "" ==> suffix[0] !in "xX"
    ensures var factor := if suffix == "" then Some(1) else Multiplier(suffix);
      Meaning((if negative then "-" else "") + (Numeral(10, n) + suffix), emptyNumeralFails) ==
        if factor.Some? then Some((n, factor.value, negative)) else None
  {
    NumeralStart(10, n);
    var t := Numeral(10, n) + suffix;
    assert t[0] == Numeral(10, n)[0];
    SignSkipped(t, negative);
    NumeralScanned(n, suffix);
  }

  /** A leading zero makes the numeral octal: "010" is eight, and "08" is a zero with a meaningless suffix. */
  lemma LeadingZeroIsOctal(emptyNumeralFails: bool)
    ensures Meaning("010", emptyNumeralFails) == Some((8, 1, false))
    ensures Meaning("08", emptyNumeralFails) == None
  {
    OctalScan();
    MultiplierTable("8");
    assert Core("8") == "8";
    WordsOfLength("8");
    assert Lower("8") == "8";
    forall i | 0 <= i < 8 ensures DECIMAL_SUFFIXES[i] != "8" && |BINARY_SUFFIXES[i]| == 2 { WordLengths(i); }
  }

  lemma OctalScan()
    ensures ScanNumeral("010") == Scan(8, "", true)
    ensures ScanNumeral("08") == Scan(0, "8", true)
  {
    assert "010"[1..] == "10" && "10"[1..] == "0" && "0"[1..] == "";
    assert ScanDigits(8, "", 8) == Scan(8, "", true);
    assert ScanDigits(8, "0", 1) == ScanDigits(8, "", 8);
    assert ScanDigits(8, "10", 0) == ScanDigits(8, "0", 1);
    assert "08"[1..] == "8";
    assert ScanDigits(8, "08", 0) == ScanDigits(8, "8", 0);
  }

  /** Zero of a unit that does not fit a word is refused: the factor alone is too large. */
  lemma ZeroOfZetta(emptyNumeralFails: bool)
    ensures Meaning("0z", emptyNumeralFails) == Some((0, Pow(1000, 7), false)) && Pow(1000, 7) >= MODULUS
  {
    assert "0z"[1..] == "z" && "z"[..1] == "z";
    assert ScanDigits(8, "0z", 0) == ScanDigits(8, "z", 0) == Scan(0, "z", true);
    assert Core("z") == "z" && Lower("z") == "z" == DECIMAL_SUFFIXES[6];
    MultiplierTable("z");
    SuffixesThatFit(6);
  }
}
