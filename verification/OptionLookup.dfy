/**
 Finding the option an argument names: exact keys, unique abbreviations, ambiguity.
 Strings are C strings, so they hold no NUL; a read at the terminator gives NUL.
 */
module OptionLookup {
  import opened Wrappers

  const NUL: char := '\0'

  /** s[i] as C reads it, up to and including the terminator. */
  function At(s: string, i: nat): char {
    if i < |s| then s[i] else NUL
  }

  predicate NoNul(s: string) {
    forall i :: 0 <= i < |s| ==> s[i] != NUL
  }

  /** strncmp(key, str, n) == 0 for n no longer than str. */
  predicate SameStart(key: string, str: string, n: nat)
    requires n <= |str|
  {
    forall i :: 0 <= i < n ==> At(key, i) == str[i]
  }

  /** The tests of the search loop: the second characters agree, and key starts with the argument. */
  predicate Candidate(key: string, str: string) {
    var c := if |str| > 0 then At(str, 1) else NUL;
    At(key, 1) == c && SameStart(key, str, |str|)
  }

  /**
   What the two tests come to.  For arguments of two or more characters the quick check on the second
   character rejects nothing; a single character must be the whole key; and the empty argument
   abbreviates every one-character key.
   */
  lemma CandidateMeaning(key: string, str: string)
    requires NoNul(key) && NoNul(str) && key != ""
    ensures |str| >= 2 ==> (Candidate(key, str) <==> str <= key)
    ensures |str| == 1 ==> (Candidate(key, str) <==> str == key)
    ensures |str| == 0 ==> (Candidate(key, str) <==> |key| == 1)
    ensures Candidate(key, str) ==> str <= key && (At(key, |str|) == NUL <==> key == str)
  {
    if SameStart(key, str, |str|) {
      assert At(key, |key|) == NUL;
      assert str <= key;
    }
  }

  /** A key of the table, or a row without one. */
  type Key = Option<string>

  datatype Found = Entry(index: nat) | Ambiguous | Unrecognized

  predicate Matches(keys: seq<Key>, i: nat, str: string)
    requires i < |keys|
  {
    keys[i].Some? && Candidate(keys[i].value, str)
  }

  predicate Exact(keys: seq<Key>, i: nat, str: string)
    requires i < |keys|
  {
    Matches(keys, i, str) && At(keys[i].value, |str|) == NUL
  }

  /** The search from row i on, with the abbreviation seen so far. */
  function LookupFrom(keys: seq<Key>, str: string, i: nat, seen: Option<nat>): (r: Found)
    requires i <= |keys| && (seen.Some? ==> seen.value < |keys|)
    ensures r.Entry? ==> r.index < |keys|
    decreases |keys| - i
  {
    if i == |keys| then (if seen.Some? then Entry(seen.value) else Unrecognized)
    else if Exact(keys, i, str) then Entry(i)
    else if Matches(keys, i, str) then
      if seen.Some? then Ambiguous else LookupFrom(keys, str, i + 1, Some(i))
    else LookupFrom(keys, str, i + 1, seen)
  }

  function Lookup(keys: seq<Key>, str: string): (r: Found)
    ensures r.Entry? ==> r.index < |keys|
  {
    LookupFrom(keys, str, 0, None)
  }

  method FindOption(keys: seq<Key>, str: string) returns (r: Found)
    ensures r == Lookup(keys, str)
  {
    var matched: Option<nat> := None;
    for i := 0 to |keys|
      invariant (matched.Some? ==> matched.value < i) && Lookup(keys, str) == LookupFrom(keys, str, i, matched)
    {
      if keys[i].Some? && Candidate(keys[i].value, str) {
        if At(keys[i].value, |str|) == NUL { return Entry(i); }
        if matched.Some? { return Ambiguous; }
        matched := Some(i);
      }
    }
    return if matched.Some? then Entry(matched.value) else Unrecognized;
  }

  // ---------------------------------------------------------------- what the search finds

  /** Rows i and j both match, and no row up to the second of them is exact. */
  predicate Clash(keys: seq<Key>, str: string, i: nat, j: nat) {
    && i < j < |keys|
    && Matches(keys, i, str) && Matches(keys, j, str)
    && forall k :: 0 <= k <= j ==> !Exact(keys, k, str)
  }

  ghost predicate Clashing(keys: seq<Key>, str: string) {
    exists i: nat, j: nat :: Clash(keys, str, i, j)
  }

  /** The state of the search on reaching row i without an answer. */
  predicate Scanned(keys: seq<Key>, str: string, i: nat, seen: Option<nat>)
    requires i <= |keys|
  {
    && (forall k :: 0 <= k < i ==> !Exact(keys, k, str))
    && (match seen
        case None => forall k :: 0 <= k < i ==> !Matches(keys, k, str)
        case Some(m) => m < i && forall k :: 0 <= k < i ==> (Matches(keys, k, str) <==> k == m))
  }

  /** The answer in terms of the whole table. */
  ghost predicate Answers(keys: seq<Key>, str: string, r: Found) {
    && (r == Ambiguous <==> Clashing(keys, str))
    && (r == Unrecognized <==> forall k :: 0 <= k < |keys| ==> !Matches(keys, k, str))
    && (r.Entry? ==>
        && r.index < |keys| && Matches(keys, r.index, str)
        && (forall k :: 0 <= k < r.index ==> !Exact(keys, k, str))
        && (Exact(keys, r.index, str) || forall k :: 0 <= k < |keys| ==> (Matches(keys, k, str) <==> k == r.index)))
  }

  lemma ExactAnswers(keys: seq<Key>, str: string, i: nat, seen: Option<nat>)
    requires i < |keys| && Scanned(keys, str, i, seen) && Exact(keys, i, str)
    ensures Answers(keys, str, Entry(i))
  {
    assert Matches(keys, i, str);
    forall p: nat, q: nat ensures !Clash(keys, str, p, q) {
      if p < q < i && Matches(keys, p, str) { assert seen == Some(p); }
    }
  }

  lemma SecondAnswers(keys: seq<Key>, str: string, i: nat, m: nat)
    requires i < |keys| && Scanned(keys, str, i, Some(m)) && Matches(keys, i, str) && !Exact(keys, i, str)
    ensures Answers(keys, str, Ambiguous)
  {
    assert Matches(keys, m, str);
    assert Clash(keys, str, m, i);
  }

  lemma EndAnswers(keys: seq<Key>, str: string, seen: Option<nat>)
    requires Scanned(keys, str, |keys|, seen)
    ensures Answers(keys, str, if seen.Some? then Entry(seen.value) else Unrecognized)
  {
    if seen.Some? { assert Matches(keys, seen.value, str); }
    forall p: nat, q: nat ensures !Clash(keys, str, p, q) {
      if p < q < |keys| && Matches(keys, p, str) { assert seen == Some(p); }
    }
  }

  lemma {:induction false} LookupFromAnswers(keys: seq<Key>, str: string, i: nat, seen: Option<nat>)
    requires i <= |keys| && Scanned(keys, str, i, seen)
    ensures Answers(keys, str, LookupFrom(keys, str, i, seen))
    decreases |keys| - i
  {
    if i == |keys| {
      EndAnswers(keys, str, seen);
    } else if Exact(keys, i, str) {
      ExactAnswers(keys, str, i, seen);
    } else if Matches(keys, i, str) {
      if seen.Some? {
        SecondAnswers(keys, str, i, seen.value);
      } else {
        LookupFromAnswers(keys, str, i + 1, Some(i));
      }
    } else {
      LookupFromAnswers(keys, str, i + 1, seen);
    }
  }

  /**
   The search answers for the whole table: an exact key wins unless two rows matched before it, a sole
   match is accepted, and the argument is ambiguous exactly when two rows match with no exact key up to
   the second of them.
   */
  lemma LookupMeaning(keys: seq<Key>, str: string)
    ensures Answers(keys, str, Lookup(keys, str))
  {
    LookupFromAnswers(keys, str, 0, None);
  }

  /** Strings as C has them, and no empty key. */
  predicate CTable(keys: seq<Key>) {
    forall i :: 0 <= i < |keys| && keys[i].Some? ==> NoNul(keys[i].value) && keys[i].value != ""
  }

  /** The argument is the key of row i, or an abbreviation of it. */
  predicate Abbreviates(keys: seq<Key>, i: nat, str: string)
    requires i < |keys|
  {
    keys[i].Some? && str <= keys[i].value
  }

  /** Two rows are abbreviated, and up to the second of them none is named in full. */
  predicate TwoFit(keys: seq<Key>, str: string, i: nat, j: nat) {
    && i < j < |keys| && Abbreviates(keys, i, str) && Abbreviates(keys, j, str)
    && forall k :: 0 <= k <= j ==> keys[k] != Some(str)
  }

  lemma RowMeaning(keys: seq<Key>, i: nat, str: string)
    requires CTable(keys) && NoNul(str) && |str| >= 2 && i < |keys|
    ensures Matches(keys, i, str) <==> Abbreviates(keys, i, str)
    ensures Exact(keys, i, str) <==> keys[i] == Some(str)
  {
    if keys[i].Some? { CandidateMeaning(keys[i].value, str); }
  }

  /**
   The same in terms of prefixes, for an argument of two or more characters: the first row with that very
   key, or the only row it abbreviates; ambiguous exactly when two rows are abbreviated before any is named
   in full; unrecognized exactly when none is abbreviated.
   */
  lemma LookupByPrefixes(keys: seq<Key>, str: string)
    requires CTable(keys) && NoNul(str) && |str| >= 2
    ensures var r := Lookup(keys, str);
      && (r == Ambiguous <==> exists i: nat, j: nat :: TwoFit(keys, str, i, j))
      && (r == Unrecognized <==> forall k :: 0 <= k < |keys| ==> !Abbreviates(keys, k, str))
      && (r.Entry? ==>
            && Abbreviates(keys, r.index, str) && (forall k :: 0 <= k < r.index ==> keys[k] != Some(str))
            && (keys[r.index] == Some(str)
                || forall k :: 0 <= k < |keys| && k != r.index ==> !Abbreviates(keys, k, str)))
  {
    LookupMeaning(keys, str);
    forall k: nat | k < |keys|
      ensures (Matches(keys, k, str) <==> Abbreviates(keys, k, str)) && (Exact(keys, k, str) <==> keys[k] == Some(str))
    {
      RowMeaning(keys, k, str);
    }
    forall i: nat, j: nat ensures Clash(keys, str, i, j) <==> TwoFit(keys, str, i, j) {}
  }
}
