/**
 64-bit unsigned arithmetic, as `unsigned long long` and `NSUInteger` have it: every operation wraps
 modulo 2^64.  A failing `assert` of the source is the result None.
 */
module Words {
  import opened Wrappers

  const MODULUS: int := 0x1_0000_0000_0000_0000
  const MAX: int := MODULUS - 1

  type U64 = x: int | 0 <= x < MODULUS

  function WrapAdd(a: U64, b: U64): U64 { (a + b) % MODULUS }

  function WrapSub(a: U64, b: U64): U64 { (a - b) % MODULUS }

  function WrapMul(a: U64, b: U64): U64 { (a * b) % MODULUS }

  // ---------------------------------------------------------------- overflow tests

  predicate SumDoesNotOverflow(a: U64, b: U64) {
    WrapAdd(a, b) >= a
  }

  predicate ProductDoesNotOverflow(a: U64, b: U64) {
    b == 0 || WrapMul(a, b) / b == a
  }

  function Sum(a: U64, b: U64): Option<U64> {
    if SumDoesNotOverflow(a, b) then Some(WrapAdd(a, b)) else None
  }

  /** HFProductInt divides by the first factor, not the second. */
  function ProductInt(a: U64, b: U64): Option<U64> {
    var result := WrapMul(a, b);
    if a == 0 || result / a == b then Some(result) else None
  }

  lemma WrapAddIs(a: U64, b: U64)
    ensures WrapAdd(a, b) == if a + b < MODULUS then a + b else a + b - MODULUS
  {
  }

  lemma WrapSubIs(a: U64, b: U64)
    ensures WrapSub(a, b) == if a >= b then a - b else a - b + MODULUS
  {
  }

  /** The tests on wrapped results decide overflow of the true results. */
  lemma SumTestExact(a: U64, b: U64)
    ensures SumDoesNotOverflow(a, b) <==> a + b < MODULUS
    ensures Sum(a, b) == if a + b < MODULUS then Some(a + b) else None
  {
  }

  /** Dividing a product that has lost multiples of the modulus never gives the factor back. */
  lemma DivideBackExact(a: nat, b: nat)
    requires b > 0
    ensures (a * b % MODULUS) / b == a <==> a * b < MODULUS
  {
    var r := a * b % MODULUS;
    if a * b < MODULUS {
      MulDiv(a, b);
    } else {
      assert r < a * b;
      DivBelow(r, a, b);
    }
  }

  lemma MulNonnegative(a: nat, b: nat)
    ensures a * b >= 0
  {
  }

  lemma MulDifference(x: int, y: int, b: int)
    ensures (y - x - 1) * b == y * b - x * b - b
  {
  }

  lemma MulMonotone(x: int, y: int, b: int)
    requires b >= 0
    ensures x <= y ==> x * b <= y * b
    ensures x < y ==> x * b + b <= y * b
  {
    if x < y {
      MulNonnegative(y - x - 1, b);
      MulDifference(x, y, b);
    }
  }

  lemma MulDiv(a: nat, b: nat)
    requires b > 0
    ensures (a * b) / b == a
  {
    var q := (a * b) / b;
    assert a * b == q * b + (a * b) % b;
    MulMonotone(q, a, b);
    MulMonotone(a, q, b);
  }

  lemma DivBelow(r: nat, a: nat, b: nat)
    requires b > 0 && r < a * b
    ensures r / b < a
  {
    assert r == (r / b) * b + r % b;
    MulMonotone(a, r / b, b);
  }

  lemma ProductTestExact(a: U64, b: U64)
    ensures ProductDoesNotOverflow(a, b) <==> a * b < MODULUS
    ensures a * b < MODULUS ==> WrapMul(a, b) == a * b
    ensures ProductInt(a, b) == if a * b < MODULUS then Some(a * b) else None
  {
    if b > 0 { DivideBackExact(a, b); }
    if a > 0 {
      assert a * b == b * a;
      DivideBackExact(b, a);
    }
  }

  // ---------------------------------------------------------------- rounding

  function RoundUpToMultiple(a: U64, b: U64): Option<U64>
    requires b > 0
  {
    var remainder := a % b;
    if remainder == 0 then Some(a) else Sum(a, b - remainder)
  }

  function RoundUpToNextMultipleSaturate(a: U64, b: U64): U64
    requires b > 0
  {
    var result := WrapAdd(a, b - a % b);
    if result < a then MAX else result
  }

  function DivideRoundingUp(a: U64, b: U64): U64
    requires b > 0
  {
    if a == 0 then 0 else QuotientSmall(a - 1, b); (a - 1) / b + 1
  }

  lemma QuotientSmall(a: nat, b: nat)
    requires b > 0
    ensures a / b <= a
  {
    assert a == (a / b) * b + a % b;
    MulMonotone(1, b, a / b);
    assert (a / b) * b == b * (a / b);
  }

  predicate IsMultiple(m: nat, b: nat)
    requires b > 0
  {
    m % b == 0
  }

  lemma MultiplesApart(m: nat, n: nat, b: nat)
    requires b > 0 && IsMultiple(m, b) && IsMultiple(n, b) && m < n
    ensures m + b <= n
  {
    assert m == (m / b) * b && n == (n / b) * b;
    MulMonotone(n / b, m / b, b);
    MulMonotone(m / b, n / b, b);
  }

  lemma NextMultiple(a: nat, b: nat)
    requires b > 0
    ensures IsMultiple(a - a % b, b) && IsMultiple(a + (b - a % b), b)
    ensures a + (b - a % b) == (a / b + 1) * b
  {
    var q := a / b;
    assert a - a % b == q * b;
    assert a + (b - a % b) == q * b + b == (q + 1) * b;
    MulMod(q, b);
    MulMod(q + 1, b);
  }

  lemma MulMod(q: nat, b: nat)
    requires b > 0
    ensures (q * b) % b == 0
  {
    MulDiv(q, b);
    assert q * b == ((q * b) / b) * b + (q * b) % b;
  }

  lemma RemainderOfPredecessor(a: nat, b: nat)
    requires a > 0 && b > 0
    ensures (a - 1) % b == if a % b == 0 then b - 1 else a % b - 1
  {
    var q, r := a / b, a % b;
    assert a == q * b + r;
    if r == 0 {
      assert a - 1 == (q - 1) * b + (b - 1);
      ModUnique(a - 1, q - 1, b, b - 1);
    } else {
      ModUnique(a - 1, q, b, r - 1);
    }
  }

  lemma ModUnique(a: nat, q: int, b: nat, r: nat)
    requires b > 0 && a == q * b + r && r < b
    ensures a % b == r && a / b == q
  {
    var q' := a / b;
    assert a == q' * b + a % b;
    MulMonotone(q, q', b);
    MulMonotone(q', q, b);
  }

  /** Rounding up gives the least multiple at or above a, which is b times the rounded-up quotient, or fails. */
  lemma RoundUpLeast(a: U64, b: U64)
    requires b > 0
    ensures var m := b * DivideRoundingUp(a, b);
      && IsMultiple(m, b) && m >= a
      && (forall n: nat :: IsMultiple(n, b) && n >= a ==> m <= n)
      && RoundUpToMultiple(a, b) == if m < MODULUS then Some(m) else None
  {
    var m := b * DivideRoundingUp(a, b);
    MulMod(DivideRoundingUp(a, b), b);
    assert m == DivideRoundingUp(a, b) * b;
    if a > 0 {
      NextMultiple(a, b);
      NextMultiple(a - 1, b);
      assert m == (a - 1) + (b - (a - 1) % b);
      RemainderOfPredecessor(a, b);
      SumTestExact(a, if a % b == 0 then 0 else b - a % b);
    }
    forall n: nat | IsMultiple(n, b) && n >= a ensures m <= n {
      if n < m { MultiplesApart(n, m, b); }
    }
  }

  /** The saturating form: the least multiple strictly above a, or the maximum when that does not fit. */
  lemma NextMultipleLeast(a: U64, b: U64)
    requires b > 0
    ensures var m := (a / b + 1) * b;
      && IsMultiple(m, b) && m > a
      && (forall n: nat :: IsMultiple(n, b) && n > a ==> m <= n)
      && RoundUpToNextMultipleSaturate(a, b) == if m < MODULUS then m else MAX
  {
    var m := (a / b + 1) * b;
    NextMultiple(a, b);
    WrapAddIs(a, b - a % b);
    forall n: nat | IsMultiple(n, b) && n > a ensures m <= n {
      if n < m { MultiplesApart(n, m, b); }
    }
  }
}
