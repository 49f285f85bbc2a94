/** Digit counts: the binary search over 9, 99, 999, ... and the count from leading zeros. */
module Digits {
  import opened Words

  function Pow(base: nat, n: nat): nat {
    if n == 0 then 1 else base * Pow(base, n - 1)
  }

  /** The table of HFCountDigitsBase10. */
  const VALUES: seq<U64> := [
    0, 9, 99, 999, 9999, 99999, 999999, 9999999, 99999999, 999999999, 9999999999, 99999999999,
    999999999999, 9999999999999, 99999999999999, 999999999999999, 9999999999999999,
    99999999999999999, 999999999999999999, 9999999999999999999]

  lemma ValuesArePowers(i: nat)
    requires i < |VALUES|
    ensures VALUES[i] == Pow(10, i) - 1
  {
    if i > 0 { ValuesArePowers(i - 1); }
  }

  lemma {:induction false} PowGrows(base: nat, i: nat, j: nat)
    requires base >= 2 && i <= j
    ensures Pow(base, i) <= Pow(base, j)
    decreases j
  {
    if i == j {
    } else {
      PowGrows(base, i, j - 1);
      MulMonotone(1, base, Pow(base, j - 1));
    }
  }

  /** r digits are exactly what a numeral of val in the base has; zero has one. */
  predicate DigitCount(base: nat, val: nat, r: nat)
    requires base >= 2
  {
    r >= 1 && val < Pow(base, r) && (val == 0 ==> r == 1) && (val > 0 ==> Pow(base, r - 1) <= val)
  }

  lemma DigitCountUnique(base: nat, val: nat, r: nat, s: nat)
    requires base >= 2 && DigitCount(base, val, r) && DigitCount(base, val, s)
    ensures r == s
  {
    if val > 0 {
      if r < s { PowGrows(base, r, s - 1); }
      if s < r { PowGrows(base, s, r - 1); }
    }
  }

  method CountDigitsBase10(val: U64) returns (r: nat)
    ensures DigitCount(10, val, r)
  {
    var low, high := 0, |VALUES|;
    while high > low
      invariant 0 <= low <= high <= |VALUES|
      invariant low > 0 ==> val > VALUES[low - 1]
      invariant high < |VALUES| ==> val <= VALUES[high]
      decreases high - low
    {
      var mid := (low + high) / 2;
      if val > VALUES[mid] { low := mid + 1; } else { high := mid; }
    }
    r := if low > 1 then low else 1;
    if low > 0 { ValuesArePowers(low - 1); }
    if low < |VALUES| { ValuesArePowers(low); } else { ValuesArePowers(|VALUES| - 1); }
    assert Pow(10, 1) == 10 && Pow(10, 0) == 1;
    assert Pow(10, 20) == 10 * Pow(10, 19);
  }

  /** The standard meaning of `__builtin_clzll`: the number of zero bits above the highest set bit. */
  predicate LeadingZeros(val: U64, zeros: nat) {
    zeros < 64 && Pow(2, 63 - zeros) <= val < Pow(2, 64 - zeros)
  }

  lemma {:induction false} PowSixteen(k: nat)
    ensures Pow(2, 4 * k) == Pow(16, k)
  {
    if k == 0 {
    } else {
      PowSixteen(k - 1);
      assert Pow(2, 4 * k) == 2 * Pow(2, 4 * k - 1) == 4 * Pow(2, 4 * k - 2);
      assert Pow(2, 4 * k - 2) == 2 * Pow(2, 4 * k - 3) == 4 * Pow(2, 4 * k - 4);
    }
  }

  function CountDigitsBase16(val: U64, leadingZeros: nat): nat
    requires leadingZeros < 64
  {
    if val == 0 then 1 else
      var logBase2 := 64 - leadingZeros - 1;
      1 + logBase2 / 4
  }

  lemma CountDigitsBase16Exact(val: U64, leadingZeros: nat)
    requires val > 0 ==> LeadingZeros(val, leadingZeros)
    requires leadingZeros < 64
    ensures DigitCount(16, val, CountDigitsBase16(val, leadingZeros))
  {
    if val == 0 {
      assert Pow(16, 1) == 16;
    } else {
      var log := 63 - leadingZeros;
      var k := log / 4;
      PowGrows(2, 4 * k, log);
      PowGrows(2, log + 1, 4 * (k + 1));
      PowSixteen(k);
      PowSixteen(k + 1);
    }
  }
}
