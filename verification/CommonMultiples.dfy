/** Euclid's loop and the overflow-checked least common multiple built on it. */
module CommonMultiples {
  import opened Wrappers
  import opened Words

  predicate Divides(d: int, n: int) {
    d > 0 && n % d == 0
  }

  function Gcd(u: nat, v: nat): nat
    decreases v
  {
    if v == 0 then u else Gcd(v, u % v)
  }

  /** Coefficients x, y with Gcd(u, v) == x * u + y * v. */
  function Bezout(u: nat, v: nat): (int, int)
    decreases v
  {
    if v == 0 then (1, 0)
    else var (x, y) := Bezout(v, u % v); (y, x - y * (u / v))
  }

  lemma DividesFactor(d: int, k: int)
    requires d > 0
    ensures Divides(d, k * d) && Divides(d, d * k) && (k * d) / d == k
  {
    var n := k * d;
    assert n == (n / d) * d + n % d;
    MulMonotone(k, n / d, d);
    MulMonotone(n / d, k, d);
    assert d * k == n;
  }

  lemma BezoutStep(u: int, v: int, q: int, r: int, x: int, y: int)
    requires u == q * v + r
    ensures y * u + (x - y * q) * v == x * v + y * r
  {
    assert y * (q * v + r) == y * (q * v) + y * r;
    assert y * (q * v) == (y * q) * v;
    assert (x - y * q) * v == x * v - (y * q) * v;
  }

  lemma DivMod(u: nat, v: nat)
    requires v > 0
    ensures u == (u / v) * v + u % v
  {
  }

  lemma {:induction false} BezoutIdentity(u: nat, v: nat)
    ensures Gcd(u, v) == Bezout(u, v).0 * u + Bezout(u, v).1 * v
    decreases v
  {
    if v == 0 {
    } else {
      var r := u % v;
      BezoutIdentity(v, r);
      DivMod(u, v);
      BezoutStep(u, v, u / v, r, Bezout(v, r).0, Bezout(v, r).1);
    }
  }

  lemma CombineMultiples(x: int, p: int, y: int, q: int, d: int)
    ensures x * (p * d) + y * (q * d) == (x * p + y * q) * d
  {
    assert x * (p * d) == (x * p) * d && y * (q * d) == (y * q) * d;
  }

  lemma DividesQuotient(d: int, n: int)
    requires Divides(d, n)
    ensures n == (n / d) * d
  {
  }

  lemma {:induction false} GcdDivides(u: nat, v: nat)
    requires u > 0 || v > 0
    ensures Divides(Gcd(u, v), u) && Divides(Gcd(u, v), v)
    decreases v
  {
    if v == 0 {
      DividesFactor(u, 1);
      DividesFactor(u, 0);
    } else {
      var r := u % v;
      GcdDivides(v, r);
      var g := Gcd(v, r);
      DivMod(u, v);
      DividesQuotient(g, v);
      DividesQuotient(g, r);
      CombineMultiples(u / v, v / g, 1, r / g, g);
      DividesFactor(g, (u / v) * (v / g) + r / g);
    }
  }

  /** Every common divisor divides what Euclid's loop ends with. */
  lemma GcdIsGreatest(u: nat, v: nat, d: int)
    requires Divides(d, u) && Divides(d, v)
    ensures Divides(d, Gcd(u, v))
  {
    BezoutIdentity(u, v);
    DividesQuotient(d, u);
    DividesQuotient(d, v);
    var x, y := Bezout(u, v).0, Bezout(u, v).1;
    CombineMultiples(x, u / d, y, v / d, d);
    DividesFactor(d, x * (u / d) + y * (v / d));
  }

  /** The true least common multiple. */
  function Lcm(a: nat, b: nat): nat
    requires a > 0 && b > 0
  {
    GcdDivides(a, b);
    (a / Gcd(a, b)) * b
  }

  lemma Quotients(a: nat, b: nat) returns (g: nat, a1: nat, b1: nat)
    requires a > 0 && b > 0
    ensures g == Gcd(a, b) > 0 && a1 == a / g && a == a1 * g && b == b1 * g && a1 > 0
  {
    GcdDivides(a, b);
    g := Gcd(a, b);
    a1, b1 := a / g, b / g;
    DividesQuotient(g, a);
    DividesQuotient(g, b);
    MulMonotone(a1, 0, g);
  }

  lemma SwapFactor(a1: int, b1: int, g: int)
    ensures a1 * (b1 * g) == b1 * (a1 * g)
  {
  }

  /** It is a positive common multiple, and it divides every common multiple. */
  lemma LcmIsLeast(a: nat, b: nat, m: int)
    requires a > 0 && b > 0
    ensures Lcm(a, b) > 0 && Divides(a, Lcm(a, b)) && Divides(b, Lcm(a, b))
    ensures Divides(a, m) && Divides(b, m) ==> Divides(Lcm(a, b), m)
  {
    var g, a1, b1 := Quotients(a, b);
    MulMonotone(1, a1, b);
    SwapFactor(a1, b1, g);
    assert Lcm(a, b) == a1 * b == b1 * a;
    DividesFactor(b, a1);
    DividesFactor(a, b1);
    if Divides(a, m) && Divides(b, m) {
      BezoutIdentity(a, b);
      CommonMultiple(a, b, g, a1, b1, Bezout(a, b).0, Bezout(a, b).1, m);
    }
  }

  /** If g = x (a1 g) + y (b1 g) then x a1 + y b1 = 1. */
  lemma CoefficientsOfOne(x: int, a1: int, y: int, b1: int, g: nat)
    requires g > 0 && g == x * (a1 * g) + y * (b1 * g)
    ensures x * a1 + y * b1 == 1
  {
    CombineMultiples(x, a1, y, b1, g);
    var c := x * a1 + y * b1;
    MulMonotone(c, 1, g);
    MulMonotone(1, c, g);
  }

  /** A number p a = q b, times x a1 + y b1, is a multiple of a1 b. */
  lemma MultipleOfProduct(a: int, b: int, g: int, a1: int, b1: int, x: int, y: int, p: int, q: int, m: int)
    requires a == a1 * g && b == b1 * g && m == p * a && m == q * b
    ensures m * (x * a1 + y * b1) == (q * x + p * y) * (a1 * b)
  {
    assert m * (x * a1) == (q * x) * (a1 * b) by {
      assert (q * b) * (x * a1) == (q * x) * (a1 * b);
    }
    assert m * (y * b1) == (p * y) * (a1 * b) by {
      SwapFactor(b1, a1, g);
      assert (p * a) * (y * b1) == (p * y) * (b1 * a);
    }
    assert m * (x * a1 + y * b1) == m * (x * a1) + m * (y * b1);
    assert (q * x + p * y) * (a1 * b) == (q * x) * (a1 * b) + (p * y) * (a1 * b);
  }

  lemma ProductOfCommon(a: int, b: int, g: nat, a1: int, b1: int, x: int, y: int, p: int, q: int, m: int)
    requires g > 0 && a == a1 * g && b == b1 * g && g == x * a + y * b && m == p * a && m == q * b
    ensures m == (q * x + p * y) * (a1 * b)
  {
    CoefficientsOfOne(x, a1, y, b1, g);
    MultipleOfProduct(a, b, g, a1, b1, x, y, p, q, m);
    TimesOne(m, x * a1 + y * b1);
  }

  lemma TimesOne(m: int, c: int)
    requires c == 1
    ensures m * c == m
  {
  }

  /** From g = x a + y b: a common multiple of a and b is a multiple of a1 b. */
  lemma CommonMultiple(a: nat, b: nat, g: nat, a1: nat, b1: nat, x: int, y: int, m: int)
    requires a > 0 && b > 0 && g > 0 && a == a1 * g && b == b1 * g && g == x * a + y * b
    requires Divides(a, m) && Divides(b, m) && a1 * b > 0
    ensures Divides(a1 * b, m)
  {
    var p, q, l := m / a, m / b, a1 * b;
    DividesQuotient(a, m);
    DividesQuotient(b, m);
    ProductOfCommon(a, b, g, a1, b1, x, y, p, q, m);
    var k := q * x + p * y;
    DividesFactor(l, k);
  }

  /** HFLeastCommonMultiple: None when an assertion fails. */
  method LeastCommonMultiple(a: U64, b: U64) returns (r: Option<U64>)
    ensures r == if a > 0 && b > 0 && Lcm(a, b) < MODULUS then Some(Lcm(a, b)) else None
  {
    if a == 0 || b == 0 { return None; }
    var u, v := a, b;
    while v > 0
      invariant u > 0 && Gcd(u, v) == Gcd(a, b)
      decreases v
    {
      var t := v;
      v := u % v;
      u := t;
    }
    GcdDivides(a, b);
    QuotientSmall(a, u);
    ProductTestExact(a / u, b);
    r := ProductInt(a / u, b);
  }
}
