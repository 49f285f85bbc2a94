/**
 The layout of the two text views of a diff window: the common byte granularity of all representers,
 and the greatest number of granules per line whose views fit side by side.  View widths are
 arbitrary real-valued functions of the bytes per line.
 */
module DiffLayout {
  import opened Wrappers
  import opened Words
  import opened CommonMultiples

  /** The granularity after folding in a list of representers; None when an assertion fails. */
  function Fold(start: Option<U64>, granularities: seq<U64>): Option<U64>
    decreases |granularities|
  {
    if granularities == [] then start
    else
      var g, b := Fold(start, granularities[..|granularities| - 1]), granularities[|granularities| - 1];
      if g.Some? && g.value > 0 && b > 0 && Lcm(g.value, b) < MODULUS then Some(Lcm(g.value, b)) else None
  }

  lemma {:induction false} FoldConcat(start: Option<U64>, a: seq<U64>, b: seq<U64>)
    ensures Fold(start, a + b) == Fold(Fold(start, a), b)
    decreases |b|
  {
    if b == [] {
      assert a + b == a;
    } else {
      assert (a + b)[..|a + b| - 1] == a + b[..|b| - 1];
      FoldConcat(start, a, b[..|b| - 1]);
    }
  }

  lemma DividesTrans(a: int, b: int, c: int)
    requires Divides(a, b) && Divides(b, c)
    ensures Divides(a, c)
  {
    var p, q := b / a, c / b;
    assert b == p * a && c == q * b;
    assert c == (q * p) * a by { assert q * (p * a) == (q * p) * a; }
    DividesFactor(a, q * p);
  }

  /** The folded granularity is the least common multiple of all of them. */
  lemma {:induction false} FoldIsLeast(granularities: seq<U64>, m: int)
    requires Fold(Some(1), granularities).Some?
    ensures var g := Fold(Some(1), granularities).value;
      && g > 0
      && (forall i :: 0 <= i < |granularities| ==> Divides(granularities[i], g))
      && ((forall i :: 0 <= i < |granularities| ==> Divides(granularities[i], m)) ==> Divides(g, m))
    decreases |granularities|
  {
    if granularities == [] {
    } else {
      var n := |granularities| - 1;
      var front := granularities[..n];
      FoldIsLeast(front, m);
      var g, b := Fold(Some(1), front).value, granularities[n];
      LcmIsLeast(g, b, m);
      forall i | 0 <= i < n ensures Divides(granularities[i], Lcm(g, b)) {
        assert granularities[i] == front[i];
        DividesTrans(granularities[i], g, Lcm(g, b));
      }
      if forall i :: 0 <= i < |granularities| ==> Divides(granularities[i], m) {
        forall i | 0 <= i < |front| ensures Divides(front[i], m) { assert front[i] == granularities[i]; }
        assert Divides(g, m) && Divides(b, m);
      }
    }
  }

  method Granularity(left: seq<U64>, right: seq<U64>) returns (g: Option<U64>)
    ensures g == Fold(Some(1), left + right)
  {
    g := Some(1);
    for i := 0 to |left|
      invariant g == Fold(Some(1), left[..i])
    {
      assert left[..i + 1][..i] == left[..i];
      if g.Some? { g := LeastCommonMultiple(g.value, left[i]); }
    }
    assert left[..|left|] == left;
    for i := 0 to |right|
      invariant g == Fold(Fold(Some(1), left), right[..i])
    {
      assert right[..i + 1][..i] == right[..i];
      if g.Some? { g := LeastCommonMultiple(g.value, right[i]); }
    }
    assert right[..|right|] == right;
    FoldConcat(Some(1), left, right);
  }

  // ---------------------------------------------------------------- the binary search

  datatype Layout = Layout(left: nat -> real, right: nat -> real, available: real, granularity: nat)

  /** k granules per line fit the available space. */
  predicate FitsIn(l: Layout, k: nat) {
    l.left(k * l.granularity) + l.right(k * l.granularity) <= l.available
  }

  ghost predicate Widening(width: nat -> real) {
    forall a: nat, b: nat :: a <= b ==> width(a) <= width(b)
  }

  lemma FitsDown(l: Layout, j: nat, k: nat)
    requires Widening(l.left) && Widening(l.right) && j <= k && FitsIn(l, k)
    ensures FitsIn(l, j)
  {
    MulMonotone(j, k, l.granularity);
  }

  /** The number of granules never tried: the initial upper bound of the search. */
  function Bound(granularity: nat): nat
    requires granularity > 0
  {
    (MAX - 1) / granularity
  }

  lemma GranulesFitWord(granularity: nat, k: nat)
    requires granularity > 0
    ensures k <= Bound(granularity) ==> k * granularity < MAX
    ensures k * granularity <= MAX ==> k <= Bound(granularity) + 1
    ensures k * granularity <= MAX && Bound(granularity) == 1 ==> k <= 1
  {
    var n := Bound(granularity);
    assert MAX - 1 == n * granularity + (MAX - 1) % granularity;
    MulMonotone(k, n, granularity);
    MulMonotone(n + 2, k, granularity);
    assert (n + 2) * granularity == n * granularity + 2 * granularity;
    if n == 1 {
      MulMonotone(2, k, granularity);
      assert MAX % 2 == 1;
    }
  }

  /** n is the largest count of granules that fits and whose bytes fit a word, or one when none fits. */
  ghost predicate Largest(l: Layout, n: nat) {
    || (FitsIn(l, n) && n * l.granularity <= MAX && forall k: nat | n < k && k * l.granularity <= MAX :: !FitsIn(l, k))
    || (n == 1 && forall k: nat | 1 <= k && k * l.granularity <= MAX :: !FitsIn(l, k))
  }

  /** What the search leaves behind: n granules, with nothing larger below the bound that fits. */
  ghost predicate Found(l: Layout, n: nat)
    requires l.granularity > 0
  {
    && n >= 1
    && (n > 1 ==> FitsIn(l, n) && n < Bound(l.granularity))
    && forall k :: n < k < Bound(l.granularity) ==> !FitsIn(l, k)
  }

  /** The answer is the true maximum exactly when the bound that is never tried does not fit (or is at most one). */
  lemma FoundIsLargest(l: Layout, n: nat)
    requires 0 < l.granularity < MODULUS && Widening(l.left) && Widening(l.right) && Found(l, n)
    ensures Largest(l, n) <==> Bound(l.granularity) <= 1 || !FitsIn(l, Bound(l.granularity))
    ensures Bound(l.granularity) * l.granularity < MAX <= (Bound(l.granularity) + 1) * l.granularity
  {
    var bound := Bound(l.granularity);
    GranulesFitWord(l.granularity, n);
    GranulesFitWord(l.granularity, bound);
    assert MAX - 1 == bound * l.granularity + (MAX - 1) % l.granularity;
    assert (bound + 1) * l.granularity == bound * l.granularity + l.granularity;
    if bound <= 1 || !FitsIn(l, bound) {
      forall k: nat | n < k && k * l.granularity <= MAX ensures !FitsIn(l, k) {
        GranulesFitWord(l.granularity, k);
        if FitsIn(l, k) && bound <= k { FitsDown(l, bound, k); }
      }
    }
  }

  /** Two views that need no width at all, in granules of 16 bytes. */
  function FreeLayout(): Layout {
    Layout(k => 0.0, k => 0.0, 1.0, 16)
  }

  /** There the bound fits, the search ends one granule below it, and so misses the maximum. */
  lemma SearchCanMiss(n: nat)
    ensures var l := FreeLayout();
      && Widening(l.left) && Widening(l.right)
      && Bound(l.granularity) > 1 && FitsIn(l, Bound(l.granularity))
      && (Found(l, n) ==> n == Bound(l.granularity) - 1 && !Largest(l, n))
  {
    var l := FreeLayout();
    if Found(l, n) {
      FoundIsLargest(l, n);
      assert FitsIn(l, Bound(l.granularity) - 1);
    }
  }

  /** The bytes per line chosen: maxKnownGood granules, at least one. */
  method MostGranules(l: Layout) returns (granules: nat)
    requires 0 < l.granularity < MODULUS
    ensures granules >= 1 && (granules > 1 ==> FitsIn(l, granules))
    ensures Widening(l.left) && Widening(l.right) ==> Found(l, granules)
    ensures Widening(l.left) && Widening(l.right) ==>
      (Largest(l, granules) <==> Bound(l.granularity) <= 1 || !FitsIn(l, Bound(l.granularity)))
    ensures granules * l.granularity < MODULUS
  {
    var maxKnownGood: nat, minKnownBad: nat := 0, Bound(l.granularity);
    while maxKnownGood + 1 < minKnownBad
      invariant minKnownBad <= Bound(l.granularity)
      invariant maxKnownGood < minKnownBad || Bound(l.granularity) == 0 == maxKnownGood
      invariant maxKnownGood > 0 ==> FitsIn(l, maxKnownGood) && maxKnownGood < Bound(l.granularity)
      invariant minKnownBad < Bound(l.granularity) ==> !FitsIn(l, minKnownBad)
      decreases minKnownBad - maxKnownGood
    {
      var proposed := maxKnownGood + (minKnownBad - maxKnownGood) / 2;
      GranulesFitWord(l.granularity, proposed);
      var bytesPerLine: U64 := proposed * l.granularity;
      if l.left(bytesPerLine) + l.right(bytesPerLine) > l.available {
        minKnownBad := proposed;
      } else {
        maxKnownGood := proposed;
      }
    }
    granules := if maxKnownGood > 1 then maxKnownGood else 1;
    GranulesFitWord(l.granularity, granules);
    if Widening(l.left) && Widening(l.right) {
      forall k | granules < k < Bound(l.granularity) ensures !FitsIn(l, k) {
        if FitsIn(l, k) { FitsDown(l, minKnownBad, k); }
      }
      FoundIsLargest(l, granules);
    }
  }

  /** Nothing wider fits: more bytes, still in granules below the bound, need more than the view has. */
  ghost predicate NothingWider(left: nat -> real, right: nat -> real, needed: real, viewWidth: real, g: nat, bytes: nat)
    requires g > 0
  {
    forall more: nat :: bytes < more && more % g == 0 && more / g < Bound(g) ==>
      left(more) + right(more) + needed > viewWidth
  }

  /** What the granules found mean for the widths. */
  lemma LayoutMeaning(left: nat -> real, right: nat -> real, viewWidth: real, distance: real, margin: real,
                      g: nat, n: nat, bytes: nat)
    requires 0 < g && n >= 1 && bytes == n * g
    requires var l := Layout(left, right, viewWidth - distance - 2.0 * margin, g);
      (n > 1 ==> FitsIn(l, n)) && (Widening(left) && Widening(right) ==> Found(l, n))
    ensures bytes % g == 0 && bytes / g == n
    ensures bytes > g ==> (left(bytes) + margin) + distance + (right(bytes) + margin) <= viewWidth
    ensures Widening(left) && Widening(right) ==>
      NothingWider(left, right, 2.0 * margin + distance, viewWidth, g, bytes)
  {
    var l := Layout(left, right, viewWidth - distance - 2.0 * margin, g);
    MulMod(n, g);
    MulDiv(n, g);
    if Widening(left) && Widening(right) {
      forall more: nat | bytes < more && more % g == 0 && more / g < Bound(g)
        ensures left(more) + right(more) + (2.0 * margin + distance) > viewWidth
      {
        assert more == (more / g) * g;
        MulMonotone(more / g, n, g);
        assert !FitsIn(l, more / g);
      }
    }
  }

  /**
   The widths handed back for the two views, or None when the granularity assertion fails.  They are the
   widths for some multiple of every representer's granularity, chosen as `MostGranules` says.
   */
  method LayoutWidths(leftGranularities: seq<U64>, rightGranularities: seq<U64>,
                      left: nat -> real, right: nat -> real,
                      viewWidth: real, interviewDistance: real, margin: real)
      returns (r: Option<(real, real)>, bytesPerLine: nat)
    ensures r.None? <==> Fold(Some(1), leftGranularities + rightGranularities).None?
    ensures r.Some? ==>
      && 0 < bytesPerLine < MODULUS
      && (forall i :: 0 <= i < |leftGranularities| ==> Divides(leftGranularities[i], bytesPerLine))
      && (forall i :: 0 <= i < |rightGranularities| ==> Divides(rightGranularities[i], bytesPerLine))
      && r.value == (left(bytesPerLine) + margin, right(bytesPerLine) + margin)
    ensures r.Some? && Widening(left) && Widening(right) ==>
      var g := Fold(Some(1), leftGranularities + rightGranularities).value;
      g > 0 &&
      var l := Layout(left, right, viewWidth - interviewDistance - 2.0 * margin, g);
      bytesPerLine % g == 0 && Found(l, bytesPerLine / g)
    ensures r.Some? ==>
      var g := Fold(Some(1), leftGranularities + rightGranularities).value;
      bytesPerLine > g ==> r.value.0 + interviewDistance + r.value.1 <= viewWidth
    ensures r.Some? && Widening(left) && Widening(right) ==>
      var g := Fold(Some(1), leftGranularities + rightGranularities).value;
      g > 0 && NothingWider(left, right, 2.0 * margin + interviewDistance, viewWidth, g, bytesPerLine)
  {
    var all := leftGranularities + rightGranularities;
    var g := Granularity(leftGranularities, rightGranularities);
    if g.None? { return None, 0; }
    FoldIsLeast(all, 0);
    var n := MostGranules(Layout(left, right, viewWidth - interviewDistance - 2.0 * margin, g.value));
    bytesPerLine := n * g.value;
    DividesFactor(g.value, n);
    MulMonotone(1, n, g.value);
    forall i | 0 <= i < |all| ensures Divides(all[i], bytesPerLine) { DividesTrans(all[i], g.value, bytesPerLine); }
    forall i | 0 <= i < |leftGranularities| ensures Divides(leftGranularities[i], bytesPerLine) {
      assert leftGranularities[i] == all[i];
    }
    forall i | 0 <= i < |rightGranularities| ensures Divides(rightGranularities[i], bytesPerLine) {
      assert rightGranularities[i] == all[|leftGranularities| + i];
    }
    r := Some((left(bytesPerLine) + margin, right(bytesPerLine) + margin));
    LayoutMeaning(left, right, viewWidth, interviewDistance, margin, g.value, n, bytesPerLine);
  }
}
