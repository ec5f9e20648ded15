/**
 The Wilson score interval of the analytics rates, in exact real arithmetic.

 The square root is a parameter: any non-negative number whose square is the radicand.
 */
module Wilson {
  import opened Reals

  const Z: real := 1.96

  datatype RateInterval = RateInterval(rate: real, lower: real, upper: real)

  function Square(x: real): real {
    x * x
  }

  function Proportion(successes: int, total: int): real
    requires total > 0
  {
    successes as real / total as real
  }

  function Denominator(total: int): real
    requires total > 0
  {
    1.0 + Z * Z / total as real
  }

  function Centre(successes: int, total: int): real
    requires total > 0
  {
    (Proportion(successes, total) + Z * Z / (2.0 * total as real)) / Denominator(total)
  }

  function Radicand(p: real, n: real): real
    requires n > 0.0
  {
    p * (1.0 - p) / n + Z * Z / (4.0 * n * n)
  }

  ghost predicate IsRoot(root: real, x: real) {
    root >= 0.0 && Square(root) == x
  }

  /** The root that the interval takes; none is needed without data. */
  ghost predicate RootFor(successes: int, total: int, root: real) {
    total > 0 ==> IsRoot(root, Radicand(Proportion(successes, total), total as real))
  }

  function Max(x: real, y: real): real {
    if x < y then y else x
  }

  function Min(x: real, y: real): real {
    if x < y then x else y
  }

  predicate Encloses(r: RateInterval, x: real) {
    r.lower <= x <= r.upper
  }

  function BuildRate(successes: int, total: int, root: real): RateInterval {
    if total <= 0 then RateInterval(0.0, 0.0, 0.0)
    else
      var centre := Centre(successes, total);
      var margin := Z * root / Denominator(total);
      RateInterval(Proportion(successes, total), Max(0.0, centre - margin), Min(1.0, centre + margin))
  }

  // ----- The score test that the interval inverts -----

  /** A true rate x is plausible when the observed proportion is within 1.96 standard errors of it. */
  predicate Plausible(n: real, p: real, x: real) {
    n * Square(p - x) <= 1.96 * 1.96 * (x * (1.0 - x))
  }

  lemma SquareOrder(y: real, m: real)
    requires m >= 0.0
    ensures Square(y) <= Square(m) <==> -m <= y <= m
  {
    var d, s := m - y, m + y;
    assert Square(m) - Square(y) == d * s;
    if d < 0.0 {
      ProductOfPositives(-d, s);
      assert (-d) * s == -(d * s);
    } else if s < 0.0 {
      ProductOfPositives(d, -s);
      assert d * (-s) == -(d * s);
    } else {
      assert d * s >= 0.0;
    }
  }

  lemma Expand(p: real, w: real, x: real)
    ensures Square(x * (1.0 + w) - (p + w / 2.0)) - (w * (p * (1.0 - p)) + w * w / 4.0)
            == (1.0 + w) * (Square(p - x) - w * (x * (1.0 - x)))
  {
  }

  predicate Within(x: real, radius: real) {
    -radius <= x <= radius
  }

  /** The score inequality per observation, with weight w = Z * Z / n. */
  predicate Scored(p: real, w: real, x: real) {
    Square(p - x) <= w * (x * (1.0 - x))
  }

  /** The quadratic inequality, solved by its centre c and margin m, both scaled by the denominator d. */
  lemma Solve(p: real, w: real, x: real, d: real, c: real, m: real)
    requires w > 0.0 && m >= 0.0 && d == 1.0 + w && c == p + w / 2.0
    requires Square(m) == w * (p * (1.0 - p)) + w * w / 4.0
    ensures Scored(p, w, x) <==> Within(Product(x, d) - c, m)
  {
    var q := Square(p - x) - w * (x * (1.0 - x));
    Expand(p, w, x);
    CancelFactor(q, 0.0, d);
    assert q * d == d * q;
    SquareOrder(x * d - c, m);
  }

  lemma Unscale(x: real, centre: real, margin: real, d: real, c: real, m: real)
    requires d > 0.0 && Product(centre, d) == c && Product(margin, d) == m
    ensures Within(Product(x, d) - c, m) <==> Within(x - centre, margin)
  {
  }

  /** Dividing the score inequality by the sample size. */
  lemma PerObservation(n: real, w: real, p: real, x: real)
    requires n > 0.0 && w * n == Z * Z
    ensures Plausible(n, p, x) <==> Scored(p, w, x)
  {
  }

  lemma Divide(x: real, d: real)
    requires d > 0.0
    ensures x / d * d == x
  {
  }

  lemma ScaledRadicand(n: real, w: real, p: real, root: real)
    requires n > 0.0 && w == Z * Z / n && Square(root) == Radicand(p, n)
    ensures Square(Z * root) == w * (p * (1.0 - p)) + w * w / 4.0
  {
  }

  lemma HalfWeight(n: real)
    requires n > 0.0
    ensures Z * Z / (2.0 * n) == Z * Z / n / 2.0
  {
  }

  lemma MarginIsNonNegative(root: real, d: real)
    requires root >= 0.0 && d > 0.0
    ensures Z * root / d >= 0.0
  {
  }

  lemma UnclampedReal(n: real, p: real, root: real, w: real, d: real, centre: real, margin: real, x: real)
    requires n > 0.0 && w == Z * Z / n && w > 0.0 && d == 1.0 + w && IsRoot(root, Radicand(p, n))
    requires Product(centre, d) == p + w / 2.0 && Product(margin, d) == Z * root
    ensures Within(x - centre, margin) <==> Plausible(n, p, x)
  {
    Divide(Z * Z, n);
    ScaledRadicand(n, w, p, root);
    Solve(p, w, x, d, p + w / 2.0, Z * root);
    Unscale(x, centre, margin, d, p + w / 2.0, Z * root);
    PerObservation(n, w, p, x);
  }

  /** Before clamping: the bounds enclose exactly the plausible rates. */
  lemma Unclamped(successes: int, total: int, root: real, x: real)
    requires total > 0 && RootFor(successes, total, root)
    ensures Within(x - Centre(successes, total), Z * root / Denominator(total))
            <==> Plausible(total as real, Proportion(successes, total), x)
  {
    var n, p, d := total as real, Proportion(successes, total), Denominator(total);
    HalfWeight(n);
    Divide(p + Z * Z / (2.0 * n), d);
    Divide(Z * root, d);
    UnclampedReal(n, p, root, Z * Z / n, d, Centre(successes, total), Z * root / d, x);
  }

  lemma NoVarianceOutside(x: real)
    requires x < 0.0 || x > 1.0
    ensures Z * Z * (x * (1.0 - x)) < 0.0
  {
  }

  lemma PositiveSquare(x: real)
    requires x != 0.0
    ensures Square(x) > 0.0
  {
    SquareOrder(x, 0.0);
  }

  lemma ScaledSquare(n: real, x: real)
    requires n >= 0.0
    ensures n * Square(x) >= 0.0
  {
  }

  /** Only rates between zero and one are plausible. */
  lemma PlausibleIsARate(n: real, p: real, x: real)
    requires n > 0.0 && Plausible(n, p, x)
    ensures 0.0 <= x <= 1.0
  {
    ScaledSquare(n, p - x);
    if x < 0.0 || x > 1.0 {
      NoVarianceOutside(x);
    }
  }

  lemma ObservedIsPlausible(n: real, p: real)
    requires 0.0 <= p <= 1.0
    ensures Plausible(n, p, p)
  {
    assert Square(p - p) == 0.0;
    if 0.0 < p < 1.0 {
      ProductOfPositives(p, 1.0 - p);
    }
  }

  lemma ProportionInRange(successes: int, total: int)
    requires total > 0 && 0 <= successes <= total
    ensures 0.0 <= Proportion(successes, total) <= 1.0
  {
  }

  /** The interval inverts the score test. */
  ghost predicate Inverts(r: RateInterval, n: real, p: real) {
    forall x :: Encloses(r, x) <==> Plausible(n, p, x)
  }

  /** The reported interval holds exactly the plausible rates; the clamps never change a bound. */
  lemma IntervalIsPlausible(successes: int, total: int, root: real)
    requires total > 0 && 0 <= successes <= total && RootFor(successes, total, root)
    ensures var r := BuildRate(successes, total, root);
            var m := Z * root / Denominator(total);
            && r.lower == Centre(successes, total) - m
            && r.upper == Centre(successes, total) + m
            && Inverts(r, total as real, Proportion(successes, total))
  {
    var n, p, m := total as real, Proportion(successes, total), Z * root / Denominator(total);
    var lower, upper := Centre(successes, total) - m, Centre(successes, total) + m;
    MarginIsNonNegative(root, Denominator(total));
    forall x
      ensures lower <= x <= upper <==> Plausible(n, p, x)
    {
      Unclamped(successes, total, root, x);
    }
    PlausibleIsARate(n, p, lower);
    PlausibleIsARate(n, p, upper);
  }

  lemma EnclosesProportion(r: RateInterval, n: real, p: real)
    requires n > 0.0 && 0.0 <= p <= 1.0 && Inverts(r, n, p)
    ensures 0.0 <= r.lower <= p <= r.upper <= 1.0
    ensures Plausible(n, p, r.lower) && Plausible(n, p, r.upper)
  {
    ObservedIsPlausible(n, p);
    assert Encloses(r, p) && Encloses(r, r.lower) && Encloses(r, r.upper);
    PlausibleIsARate(n, p, r.lower);
    PlausibleIsARate(n, p, r.upper);
  }

  /** Whatever the counts, a rate lies in its interval and the interval in [0, 1]. */
  lemma RateIsEnclosed(successes: int, total: int, root: real)
    requires 0 <= successes <= total && RootFor(successes, total, root)
    ensures var r := BuildRate(successes, total, root);
            0.0 <= r.lower <= r.rate <= r.upper <= 1.0
  {
    if total > 0 {
      IntervalIsPlausible(successes, total, root);
      ProportionInRange(successes, total);
      EnclosesProportion(BuildRate(successes, total, root), total as real, Proportion(successes, total));
    }
  }

  /** The rate is the share of successes; without data, rate and bounds are zero. */
  lemma RateIsShare(successes: int, total: int, root: real)
    requires 0 <= successes <= total
    ensures var r := BuildRate(successes, total, root);
            r.rate * total as real == successes as real && (total == 0 ==> r.lower == r.rate == r.upper == 0.0)
  {
    if total > 0 {
      Divide(successes as real, total as real);
    }
  }

  lemma ProportionsOrdered(s1: int, s2: int, total: int)
    requires total > 0 && s1 <= s2
    ensures Proportion(s1, total) <= Proportion(s2, total)
  {
  }

  /** A rate outside the span of two proportions that is plausible for the far one is for the near one. */
  lemma PlausibleForNearer(n: real, far: real, near: real, x: real)
    requires n > 0.0 && Plausible(n, far, x)
    requires x <= near <= far || far <= near <= x
    ensures Plausible(n, near, x)
  {
    var gap := if far >= x then far - x else x - far;
    SquareOrder(near - x, gap);
    assert Square(gap) == Square(far - x);
    CancelFactor(Square(near - x), Square(far - x), n);
  }

  lemma MovesUp(r1: RateInterval, r2: RateInterval, n: real, p1: real, p2: real)
    requires n > 0.0 && 0.0 <= p1 <= p2 <= 1.0 && Inverts(r1, n, p1) && Inverts(r2, n, p2)
    ensures r1.lower <= r2.lower && r1.upper <= r2.upper
  {
    EnclosesProportion(r1, n, p1);
    EnclosesProportion(r2, n, p2);
    if r1.upper > p2 {
      PlausibleForNearer(n, p1, p2, r1.upper);
      assert Encloses(r2, r1.upper);
    }
    if r2.lower < p1 {
      PlausibleForNearer(n, p2, p1, r2.lower);
      assert Encloses(r1, r2.lower);
    }
  }

  /** More successes out of the same total never lower either bound. */
  lemma BoundsAreMonotone(s1: int, s2: int, total: int, root1: real, root2: real)
    requires 0 <= s1 <= s2 <= total && RootFor(s1, total, root1) && RootFor(s2, total, root2)
    ensures BuildRate(s1, total, root1).lower <= BuildRate(s2, total, root2).lower
    ensures BuildRate(s1, total, root1).upper <= BuildRate(s2, total, root2).upper
  {
    if total > 0 {
      IntervalIsPlausible(s1, total, root1);
      IntervalIsPlausible(s2, total, root2);
      ProportionInRange(s1, total);
      ProportionInRange(s2, total);
      ProportionsOrdered(s1, s2, total);
      MovesUp(BuildRate(s1, total, root1), BuildRate(s2, total, root2), total as real,
              Proportion(s1, total), Proportion(s2, total));
    }
  }

  lemma Narrows(r1: RateInterval, r2: RateInterval, n1: real, n2: real, p: real)
    requires 0.0 < n1 <= n2 && 0.0 <= p <= 1.0 && Inverts(r1, n1, p) && Inverts(r2, n2, p)
    ensures r1.lower <= r2.lower && r2.upper <= r1.upper
  {
    EnclosesProportion(r2, n2, p);
    FewerDataAccept(n1, n2, p, r2.lower);
    FewerDataAccept(n1, n2, p, r2.upper);
    assert Encloses(r1, r2.lower) && Encloses(r1, r2.upper);
  }

  /** The same proportion seen in more data gives an interval inside the first. */
  lemma MoreDataNarrows(s1: int, t1: int, root1: real, s2: int, t2: int, root2: real)
    requires 0 <= s1 <= t1 && 0 <= s2 <= t2 && 0 < t1 <= t2
    requires Proportion(s1, t1) == Proportion(s2, t2)
    requires RootFor(s1, t1, root1) && RootFor(s2, t2, root2)
    ensures BuildRate(s1, t1, root1).lower <= BuildRate(s2, t2, root2).lower
    ensures BuildRate(s2, t2, root2).upper <= BuildRate(s1, t1, root1).upper
  {
    IntervalIsPlausible(s1, t1, root1);
    IntervalIsPlausible(s2, t2, root2);
    ProportionInRange(s1, t1);
    Narrows(BuildRate(s1, t1, root1), BuildRate(s2, t2, root2), t1 as real, t2 as real, Proportion(s1, t1));
  }

  lemma FewerDataAccept(n: real, m: real, p: real, x: real)
    requires 0.0 < n <= m && Plausible(m, p, x)
    ensures Plausible(n, p, x)
  {
    ScaledSquare(m - n, p - x);
    assert m * Square(p - x) == n * Square(p - x) + (m - n) * Square(p - x);
  }

  /** Swapping successes and failures reflects the interval. */
  lemma FailuresMirrorSuccesses(successes: int, total: int, root: real)
    requires 0 < total && RootFor(successes, total, root)
    ensures RootFor(total - successes, total, root)
    ensures Centre(total - successes, total) == 1.0 - Centre(successes, total)
  {
    var n, p, d := total as real, Proportion(successes, total), Denominator(total);
    var q := Proportion(total - successes, total);
    Divide(successes as real, n);
    Divide((total - successes) as real, n);
    assert (p + q) * n == n;
    CancelFactor(p + q, 1.0, n);
    CancelFactor(1.0, p + q, n);
    assert p * (1.0 - p) == q * (1.0 - q);
    MirrorCentre(p, q, n, d);
  }

  lemma MirrorCentre(p: real, q: real, n: real, d: real)
    requires n > 0.0 && p + q == 1.0 && d == 1.0 + Z * Z / n
    ensures (q + Z * Z / (2.0 * n)) / d == 1.0 - (p + Z * Z / (2.0 * n)) / d
  {
    var h := Z * Z / (2.0 * n);
    HalfWeight(n);
    assert (q + h) + (p + h) == d;
    var x, y := (q + h) / d, (p + h) / d;
    Divide(q + h, d);
    Divide(p + h, d);
    assert (x + y) * d == x * d + y * d;
    CancelFactor(x + y, 1.0, d);
    CancelFactor(1.0, x + y, d);
  }

  /** The interval reaches zero exactly when nothing succeeded. */
  lemma LowerIsZeroIffNoSuccess(successes: int, total: int, root: real)
    requires 0 <= successes <= total && 0 < total && RootFor(successes, total, root)
    ensures BuildRate(successes, total, root).lower == 0.0 <==> successes == 0
  {
    var n, p := total as real, Proportion(successes, total);
    IntervalIsPlausible(successes, total, root);
    RateIsEnclosed(successes, total, root);
    Divide(successes as real, n);
    if successes == 0 {
      assert p == 0.0;
      assert Square(p - 0.0) == 0.0;
      assert Plausible(n, p, 0.0);
    } else {
      CancelFactor(p, 0.0, n);
      PositiveSquare(p);
      ProductOfPositives(n, Square(p));
      assert !Plausible(n, p, 0.0);
    }
  }

  // ----- Counts without an interval -----

  /** What the radicand is compared with, without fractions. */
  function Excess(successes: real, total: real): real {
    4.0 * (successes * (successes - total)) - Z * Z * total
  }

  lemma Unfraction(p: real, n: real)
    requires n > 0.0
    ensures Radicand(p, n) * (4.0 * (n * n)) == 4.0 * (n * (p * (1.0 - p))) + Z * Z
  {
    var q, z2 := p * (1.0 - p), Z * Z;
    Divide(q, n);
    PositiveSquare(n);
    assert 4.0 * n * n == 4.0 * (n * n);
    assert 4.0 * (n * n) > 0.0;
    Divide(z2, 4.0 * (n * n));
    var a, b := q / n, z2 / (4.0 * (n * n));
    assert a * (4.0 * (n * n)) == 4.0 * (n * (a * n));
  }

  lemma ScaledExcess(p: real, n: real, successes: real)
    requires n > 0.0 && p * n == successes
    ensures (4.0 * (n * (p * (1.0 - p))) + Z * Z) * n == -Excess(successes, n)
  {
    var q := p * (1.0 - p);
    assert n * q * n == (p * n) * (n - p * n);
  }

  lemma SignOfRadicand(r: real, n: real, e: real)
    requires n > 0.0 && r * (4.0 * (n * n)) * n == -e
    ensures r < 0.0 <==> e > 0.0
    ensures r > 0.0 <==> e < 0.0
  {
    var d := 4.0 * (n * n);
    PositiveSquare(n);
    CancelFactor(0.0, r * d, n);
    CancelFactor(r * d, 0.0, n);
    CancelFactor(0.0, r, d);
    CancelFactor(r, 0.0, d);
  }

  lemma NoRoot(x: real)
    requires x < 0.0
    ensures forall root :: !IsRoot(root, x)
  {
    forall root
      ensures !IsRoot(root, x)
    {
      if root != 0.0 { PositiveSquare(root); }
    }
  }

  lemma RadicandSign(successes: int, total: int)
    requires total > 0
    ensures var r, e := Radicand(Proportion(successes, total), total as real), Excess(successes as real, total as real);
            (r < 0.0 <==> e > 0.0) && (r > 0.0 <==> e < 0.0)
  {
    var n, p := total as real, Proportion(successes, total);
    Divide(successes as real, n);
    Unfraction(p, n);
    ScaledExcess(p, n, successes as real);
    SignOfRadicand(Radicand(p, n), n, Excess(successes as real, n));
  }

  /** The square root has no real value exactly when 4 s (s - n) exceeds z^2 n, so never with s <= n. */
  lemma NoIntervalIff(successes: int, total: int)
    requires total > 0
    ensures Radicand(Proportion(successes, total), total as real) < 0.0
            <==> Excess(successes as real, total as real) > 0.0
    ensures 0 <= successes <= total ==> Radicand(Proportion(successes, total), total as real) > 0.0
    ensures Excess(successes as real, total as real) > 0.0 ==> forall root :: !RootFor(successes, total, root)
  {
    RadicandSign(successes, total);
    if 0 <= successes <= total {
      NegativeExcess(successes as real, total as real);
    }
    if Excess(successes as real, total as real) > 0.0 {
      NoRoot(Radicand(Proportion(successes, total), total as real));
    }
  }

  lemma CountsExceed(successes: int, total: int)
    requires total > 0
    ensures Excess(successes as real, total as real) > 0.0 <==> successes < 0 || successes > total
  {
    var s, n := successes as real, total as real;
    if 0 <= successes <= total {
      NegativeExcess(s, n);
    } else {
      FarOutside(s, n);
    }
  }

  lemma FarOutside(s: real, n: real)
    requires n >= 1.0 && (s <= -1.0 || s >= n + 1.0)
    ensures Excess(s, n) > 0.0
  {
    if s >= n + 1.0 {
      ProductAtLeast(s, s - n, n + 1.0);
    } else {
      ProductAtLeast(n - s, -s, n + 1.0);
      assert (n - s) * (-s) == s * (s - n);
    }
  }

  lemma ProductAtLeast(x: real, y: real, bound: real)
    requires x >= bound && y >= 1.0 && bound > 0.0
    ensures x * y >= bound
  {
    CancelFactor(1.0, y, x);
    assert y * x == x * y;
  }

  /** The interval is missing exactly for counts that are no proportion: below zero or above the total. */
  lemma NoIntervalIffNoProportion(successes: int, total: int)
    requires total > 0
    ensures Radicand(Proportion(successes, total), total as real) < 0.0 <==> successes < 0 || successes > total
    ensures successes < 0 || successes > total ==> forall root :: !RootFor(successes, total, root)
  {
    NoIntervalIff(successes, total);
    CountsExceed(successes, total);
  }

  lemma NegativeExcess(successes: real, total: real)
    requires 0.0 <= successes <= total && total > 0.0
    ensures Excess(successes, total) < 0.0
  {
    if 0.0 < successes < total {
      ProductOfPositives(successes, total - successes);
      assert successes * (successes - total) == -(successes * (total - successes));
    }
  }
}
