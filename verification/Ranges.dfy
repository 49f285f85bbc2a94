/**
 HFRange: a 64-bit location and length.  The end may lie past 2^64, so no operation may add the two
 without care; the lemmas say that the wrapped arithmetic still answers for the true indexes.
 */
module Ranges {
  import opened Wrappers
  import opened Words

  datatype Range = Range(location: U64, length: U64)

  predicate LocationInRange(location: U64, r: Range) {
    location >= r.location && location - r.location < r.length
  }

  function End(r: Range): int {
    r.location + r.length
  }

  // ---------------------------------------------------------------- comparing sums

  /** a + b > c + d by halves and remainders. */
  predicate SumIsLargerThanSum(a: U64, b: U64, c: U64, d: U64) {
    var rem1, rem2 := a % 2 + b % 2, c % 2 + d % 2;
    var sum1 := WrapAdd(WrapAdd(a / 2, b / 2), rem1 / 2);
    var sum2 := WrapAdd(WrapAdd(c / 2, d / 2), rem2 / 2);
    if sum1 > sum2 then true
    else if sum1 < sum2 then false
    else rem1 % 2 > rem2 % 2
  }

  /** Bitwise and, exclusive or, and and-not of unsigned numbers, bit by bit from the lowest. */
  function AndBit(x: nat, y: nat): nat {
    if x == 1 && y == 1 then 1 else 0
  }

  function BitAnd(a: nat, b: nat): nat {
    if a == 0 || b == 0 then 0 else 2 * BitAnd(a / 2, b / 2) + AndBit(a % 2, b % 2)
  }

  function BitXor(a: nat, b: nat): nat
    decreases a + b
  {
    if a == 0 then b else if b == 0 then a
    else 2 * BitXor(a / 2, b / 2) + (a + b) % 2
  }

  function BitAndNot(a: nat, b: nat): nat
    decreases a
  {
    if a == 0 then 0 else 2 * BitAndNot(a / 2, b / 2) + AndBit(a % 2, 1 - b % 2)
  }

  lemma LowBitSum(a: nat, b: nat)
    ensures 2 * AndBit(a % 2, b % 2) + (a + b) % 2 == a % 2 + b % 2
    ensures a == 2 * (a / 2) + a % 2
  {
  }

  /** A sum is twice the common bits plus the differing ones. */
  lemma {:induction false} AndXorSum(a: nat, b: nat)
    ensures 2 * BitAnd(a, b) + BitXor(a, b) == a + b
  {
    if a == 0 || b == 0 {
    } else {
      AndXorSum(a / 2, b / 2);
      LowBitSum(a, b);
      LowBitSum(b, a);
    }
  }

  lemma AndOne(x: nat, bit: nat)
    requires bit < 2
    ensures BitAnd(x, bit) == AndBit(x % 2, bit)
  {
    if x != 0 && bit == 1 { assert BitAnd(x / 2, 0) == 0; }
  }

  lemma {:induction false} AndNotLow(a: nat, b: nat)
    ensures BitAndNot(a, b) % 2 == AndBit(a % 2, 1 - b % 2)
    ensures BitAndNot(a, b) <= a
  {
    if a != 0 { AndNotLow(a / 2, b / 2); }
  }

  /** (a & b) + (a ^ b) / 2, the average rounded down. */
  function Average(a: U64, b: U64): U64 {
    AndXorSum(a, b);
    WrapAdd(BitAnd(a, b), BitXor(a, b) / 2)
  }

  /** The disabled form: compare averages, then the low bits of the exclusive ors. */
  predicate SumIsLargerByAverages(a: U64, b: U64, c: U64, d: U64) {
    var xor1, xor2 := BitXor(a, b), BitXor(c, d);
    var avg1, avg2 := Average(a, b), Average(c, d);
    var eq := if avg1 == avg2 then 1 else 0;
    avg1 > avg2 || BitAnd(BitAndNot(xor1, xor2), eq) != 0
  }

  lemma HalvesDecide(a: U64, b: U64, c: U64, d: U64)
    ensures SumIsLargerThanSum(a, b, c, d) <==> a + b > c + d
  {
    HalvesExact(a, b);
    HalvesExact(c, d);
    var p, q := a + b, c + d;
    assert p > q <==> p / 2 > q / 2 || (p / 2 == q / 2 && p % 2 > q % 2);
  }

  /** Both forms decide the comparison of the true sums, on all inputs, and no intermediate sum wraps. */
  lemma SumComparisonExact(a: U64, b: U64, c: U64, d: U64)
    ensures SumIsLargerThanSum(a, b, c, d) <==> a + b > c + d
    ensures SumIsLargerByAverages(a, b, c, d) <==> a + b > c + d
    ensures a / 2 + b / 2 + (a % 2 + b % 2) / 2 < MODULUS
    ensures BitAnd(a, b) + BitXor(a, b) / 2 < MODULUS
  {
    HalvesDecide(a, b, c, d);
    AverageExact(a, b);
    AveragesExact(a, b, c, d);
  }

  lemma HalvesExact(a: U64, b: U64)
    ensures WrapAdd(WrapAdd(a / 2, b / 2), (a % 2 + b % 2) / 2) == (a + b) / 2
    ensures (a % 2 + b % 2) % 2 == (a + b) % 2
  {
    WrapAddIs(a / 2, b / 2);
    assert a / 2 + b / 2 + (a % 2 + b % 2) / 2 == (a + b) / 2;
    WrapAddIs(a / 2 + b / 2, (a % 2 + b % 2) / 2);
  }

  lemma HalfSum(x: nat, y: nat, s: nat)
    requires 2 * x + y == s
    ensures x + y / 2 == s / 2 && y % 2 == s % 2
  {
  }

  lemma AverageExact(a: U64, b: U64)
    ensures Average(a, b) == BitAnd(a, b) + BitXor(a, b) / 2 == (a + b) / 2
    ensures BitXor(a, b) % 2 == (a + b) % 2
  {
    AndXorSum(a, b);
    HalfSum(BitAnd(a, b), BitXor(a, b), a + b);
  }

  lemma LowBitsDiffer(x: nat, y: nat, eq: nat)
    requires eq < 2
    ensures BitAnd(BitAndNot(x, y), eq) != 0 <==> eq == 1 && x % 2 > y % 2
  {
    AndOne(BitAndNot(x, y), eq);
    AndNotLow(x, y);
  }

  lemma AveragesExact(a: U64, b: U64, c: U64, d: U64)
    ensures SumIsLargerByAverages(a, b, c, d) <==> a + b > c + d
  {
    AverageExact(a, b);
    AverageExact(c, d);
    LowBitsDiffer(BitXor(a, b), BitXor(c, d), if (a + b) / 2 == (c + d) / 2 then 1 else 0);
  }

  // ---------------------------------------------------------------- intersection

  predicate Intersects(a: Range, b: Range) {
    if a.length == 0 || b.length == 0 then false
    else
      var clause1 := a.location >= b.location && a.location - b.location >= b.length;
      var clause2 := b.location >= a.location && b.location - a.location >= a.length;
      !(clause1 || clause2)
  }

  predicate ExtendsPast(a: Range, b: Range) {
    SumIsLargerThanSum(a.location, a.length, b.location, b.length)
  }

  function Intersection(range1: Range, range2: Range): Range {
    IntersectionUpTo(range1, range2, ExtendsPast(range2, range1))
  }

  function IntersectionUpTo(range1: Range, range2: Range, extendsPast: bool): Range {
    var minend :=
      if extendsPast then WrapAdd(range1.location, range1.length)
      else WrapAdd(range2.location, range2.length);
    if range2.location <= range1.location && range1.location - range2.location < range2.length then
      Range(range1.location, WrapSub(minend, range1.location))
    else if range1.location <= range2.location && range2.location - range1.location < range1.length then
      Range(range2.location, WrapSub(minend, range2.location))
    else
      Range(0, 0)
  }

  /** Ranges intersect exactly when some 64-bit index lies in both. */
  lemma IntersectsMeansShared(a: Range, b: Range)
    ensures Intersects(a, b) <==> exists i: U64 :: LocationInRange(i, a) && LocationInRange(i, b)
  {
    if Intersects(a, b) {
      var i: U64 := if a.location >= b.location then a.location else b.location;
      assert LocationInRange(i, a) && LocationInRange(i, b);
    }
  }

  /** The true end of the wrapped computation: the smaller of the two ends. */
  lemma IntersectionLength(a: Range, b: Range)
    ensures var r := Intersection(a, b);
      r == if b.location <= a.location < End(b) then
             Range(a.location, (if End(b) > End(a) then End(a) else End(b)) - a.location)
           else if a.location <= b.location < End(a) then
             Range(b.location, (if End(b) > End(a) then End(a) else End(b)) - b.location)
           else Range(0, 0)
  {
    SumComparisonExact(b.location, b.length, a.location, a.length);
    UpToTrueEnd(a, b);
  }

  lemma UpToTrueEnd(a: Range, b: Range)
    ensures var end := if End(b) > End(a) then End(a) else End(b);
      IntersectionUpTo(a, b, End(b) > End(a)) ==
        if b.location <= a.location < End(b) then Range(a.location, end - a.location)
        else if a.location <= b.location < End(a) then Range(b.location, end - b.location)
        else Range(0, 0)
  {
    WrapAddIs(a.location, a.length);
    WrapAddIs(b.location, b.length);
  }

  /** The intersection holds exactly the shared indexes, even when ends pass 2^64. */
  lemma IntersectionExact(a: Range, b: Range, i: U64)
    ensures LocationInRange(i, Intersection(a, b)) <==> LocationInRange(i, a) && LocationInRange(i, b)
    ensures Intersection(a, b).length > 0 <==> Intersects(a, b)
  {
    IntersectionLength(a, b);
  }

  /** An empty range lying inside the other, which the documented {0, 0} result forgets. */
  predicate EmptyInside(a: Range, b: Range) {
    a.length == 0 && LocationInRange(a.location, b) && a.location != 0
  }

  /**
   With no index in common the result is {0, 0} unless one range is empty inside the other, past location 0;
   then it is that empty range.
   */
  lemma DisjointIntersection(a: Range, b: Range)
    requires !Intersects(a, b)
    ensures Intersection(a, b) == Range(0, 0) <==> !EmptyInside(a, b) && !EmptyInside(b, a)
    ensures EmptyInside(a, b) ==> Intersection(a, b) == a
    ensures EmptyInside(b, a) ==> Intersection(a, b) == b
    ensures Intersection(Range(5, 0), Range(0, 10)) == Range(5, 0)
  {
    IntersectionLength(a, b);
    IntersectionLength(Range(5, 0), Range(0, 10));
  }

  // ---------------------------------------------------------------- subranges, splitting, union

  function MaxRange(r: Range): Option<U64> {
    Sum(r.location, r.length)
  }

  predicate IsSubrange(needle: Range, haystack: Range) {
    if needle.location < haystack.location || needle.length > haystack.length then false
    else haystack.length - needle.length >= needle.location - haystack.location
  }

  predicate Fits(r: Range) {
    End(r) < MODULUS
  }

  /** Being a subrange is a partial order. */
  lemma SubrangeOrder(a: Range, b: Range, c: Range)
    ensures IsSubrange(a, a)
    ensures IsSubrange(a, b) && IsSubrange(b, a) ==> a == b
    ensures IsSubrange(a, b) && IsSubrange(b, c) ==> IsSubrange(a, c)
  {
  }

  /** i lies in r, as true integers: r may reach past the indexes a word can hold. */
  predicate Holds(r: Range, i: int) {
    r.location <= i < End(r)
  }

  /**
   A nonempty range is a subrange exactly when all its indexes lie in the other range; an empty one exactly
   when it lies between the other's start and end, both included.
   */
  lemma SubrangeIsInclusion(a: Range, b: Range)
    ensures a.length > 0 ==> (IsSubrange(a, b) <==> forall i: int :: Holds(a, i) ==> Holds(b, i))
    ensures a.length == 0 ==> (IsSubrange(a, b) <==> b.location <= a.location <= End(b))
  {
    if a.length > 0 { assert Holds(a, a.location) && Holds(a, End(a) - 1); }
  }

  /**
   Over the indexes a word can hold, the same is true as long as the range ends at 2^64 or before; a range
   that reaches further is included in that sense exactly when the other starts no later and reaches 2^64.
   */
  lemma SubrangeIsWordInclusion(a: Range, b: Range)
    requires a.length > 0
    ensures var included := forall i: U64 :: LocationInRange(i, a) ==> LocationInRange(i, b);
      if End(a) <= MODULUS then IsSubrange(a, b) <==> included
      else included <==> b.location <= a.location && End(b) >= MODULUS
  {
    var first: U64, last: U64 := a.location, if End(a) <= MODULUS then End(a) - 1 else MAX;
    assert LocationInRange(first, a) && LocationInRange(last, a);
  }

  /** Prefix and suffix of a range around a subrange; None when an assertion fails. */
  method SplitAboutSubrange(range: Range, subrange: Range) returns (r: Option<(Range, Range)>)
    ensures r.Some? <==> IsSubrange(subrange, range) && Fits(range)
    ensures r.Some? ==>
      r.value == (Prefix(range, subrange), Suffix(range, subrange))
  {
    SumTestExact(subrange.location, subrange.length);
    SumTestExact(range.location, range.length);
    if !IsSubrange(subrange, range) { return None; }
    var prefix := Range(range.location, subrange.location - range.location);
    var suffixStart, end := MaxRange(subrange), MaxRange(range);
    if suffixStart.None? || end.None? { return None; }
    r := Some((prefix, Range(suffixStart.value, WrapSub(end.value, suffixStart.value))));
  }

  function Union(a: Range, b: Range): Option<Range> {
    var maxA, maxB := MaxRange(a), MaxRange(b);
    if Intersects(a, b) || maxA == Some(b.location) || maxB == Some(a.location) then
      if maxA.Some? && maxB.Some? then
        var location := if a.location < b.location then a.location else b.location;
        var end := if maxA.value > maxB.value then maxA.value else maxB.value;
        Some(Range(location, WrapSub(end, location)))
      else None
    else None
  }

  /** Where defined, the union holds exactly the indexes of both; it is defined for touching ranges that fit. */
  lemma UnionExact(a: Range, b: Range)
    ensures Union(a, b).Some? <==>
      Fits(a) && Fits(b) && (Intersects(a, b) || End(a) == b.location || End(b) == a.location)
    ensures Union(a, b).Some? ==> forall i: U64 ::
      LocationInRange(i, Union(a, b).value) <==> LocationInRange(i, a) || LocationInRange(i, b)
  {
    SumTestExact(a.location, a.length);
    SumTestExact(b.location, b.length);
  }

  function Prefix(range: Range, subrange: Range): Range
    requires IsSubrange(subrange, range)
  {
    Range(range.location, subrange.location - range.location)
  }

  function Suffix(range: Range, subrange: Range): Range
    requires IsSubrange(subrange, range) && Fits(range)
  {
    Range(End(subrange), End(range) - End(subrange))
  }

  lemma UnionAdjacent(a: Range, b: Range)
    requires End(a) == b.location && Fits(b)
    ensures Union(a, b) == Some(Range(a.location, a.length + b.length))
  {
    SumTestExact(a.location, a.length);
    SumTestExact(b.location, b.length);
    WrapSubIs(End(b), a.location);
  }

  /** The split parts put back together are the range. */
  lemma SplitRebuilds(range: Range, subrange: Range)
    requires IsSubrange(subrange, range) && Fits(range)
    ensures Union(Prefix(range, subrange), subrange).Some?
    ensures Union(Union(Prefix(range, subrange), subrange).value, Suffix(range, subrange)) == Some(range)
  {
    UnionAdjacent(Prefix(range, subrange), subrange);
    UnionAdjacent(Range(range.location, End(subrange) - range.location), Suffix(range, subrange));
  }

  /** Every index of the range is in exactly one part, and no other index is in any. */
  lemma SplitPartitions(range: Range, subrange: Range, i: U64)
    requires IsSubrange(subrange, range) && Fits(range)
    ensures var prefix, suffix := Prefix(range, subrange), Suffix(range, subrange);
      var parts := (if LocationInRange(i, prefix) then 1 else 0) + (if LocationInRange(i, subrange) then 1 else 0)
                 + (if LocationInRange(i, suffix) then 1 else 0);
      parts == if LocationInRange(i, range) then 1 else 0
  {
  }
}
