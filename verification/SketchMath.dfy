/** The arithmetic of the relative-error sketch, in exact reals: logarithmic buckets and the estimate
    each bucket stands for (`index` and `value` in internal/aggregate/sketch.go). */
module SketchMath {

  const MAX_INT64: int := 0x7fff_ffff_ffff_ffff
  const MIN_INT64: int := -0x8000_0000_0000_0000

  predicate IsInt64(v: int) { MIN_INT64 <= v <= MAX_INT64 }

  predicate ValidAccuracy(alpha: real) { 0.0 < alpha < 1.0 }

  function Gamma(alpha: real): (g: real)
    requires ValidAccuracy(alpha)
    ensures g > 1.0
    ensures g * (1.0 - alpha) == 1.0 + alpha
  {
    (1.0 + alpha) / (1.0 - alpha)
  }

  function Pow(g: real, n: nat): (p: real)
    requires g > 1.0
    ensures p >= 1.0
  {
    if n == 0 then 1.0
    else
      var p := Pow(g, n - 1);
      ProductAtLeast(g, p);
      g * p
  }

  lemma ScaleMonotone(c: real, x: real, y: real)
    requires c >= 0.0 && x <= y
    ensures c * x <= c * y
  {
  }

  lemma ProductAtLeast(g: real, p: real)
    requires g > 1.0 && p >= 1.0
    ensures g * p > p
    ensures g * p >= p + (g - 1.0)
  {
    ScaleMonotone(g - 1.0, 1.0, p);
    assert (g - 1.0) * p == g * p - p;
  }

  lemma {:induction false} PowIncreasing(g: real, m: nat, n: nat)
    requires g > 1.0 && m < n
    ensures Pow(g, m) < Pow(g, n)
  {
    ProductAtLeast(g, Pow(g, n - 1));
    if m < n - 1 { PowIncreasing(g, m, n - 1); }
  }

  /** Bernoulli's inequality: powers of a base above one pass every bound. */
  lemma {:induction false} PowUnbounded(g: real, n: nat)
    requires g > 1.0
    ensures Pow(g, n) >= 1.0 + n as real * (g - 1.0)
  {
    if n > 0 {
      PowUnbounded(g, n - 1);
      ProductAtLeast(g, Pow(g, n - 1));
      OneMore(n, g - 1.0);
      assert Pow(g, n) == g * Pow(g, n - 1);
    }
  }

  lemma OneMore(n: nat, d: real)
    requires n > 0
    ensures n as real * d == (n - 1) as real * d + d
  {
    var m := (n - 1) as real;
    assert n as real == m + 1.0;
    assert (m + 1.0) * d == m * d + d;
  }

  /** An exponent past which the powers of `g` exceed `v`. */
  function Reach(g: real, v: real): (n: nat)
    requires g > 1.0 && v >= 1.0
    ensures v <= Pow(g, n)
  {
    var n := (v / (g - 1.0)).Floor + 1;
    PowUnbounded(g, n);
    assert n as real >= v / (g - 1.0);
    QuotientBound(v, g - 1.0, n as real);
    n
  }

  lemma QuotientBound(v: real, d: real, n: real)
    requires d > 0.0 && n >= v / d
    ensures n * d >= v
  {
    assert (n - v / d) * d >= 0.0;
    assert v / d * d == v;
  }

  function IndexFrom(g: real, v: real, n: nat): (i: nat)
    requires g > 1.0 && v >= 1.0
    requires forall k: nat :: k < n ==> Pow(g, k) < v
    ensures v <= Pow(g, i)
    ensures forall k: nat :: k < i ==> Pow(g, k) < v
    decreases Reach(g, v) - n
  {
    if v <= Pow(g, n) then n
    else
      assert Pow(g, n) < v <= Pow(g, Reach(g, v));
      assert n <= Reach(g, v);
      IndexFrom(g, v, n + 1)
  }

  /** The bucket of a positive value: the least exponent whose power reaches it. */
  function Index(g: real, v: int): (i: nat)
    requires g > 1.0 && v >= 1
    ensures v as real <= Pow(g, i)
    ensures forall k: nat :: k < i ==> Pow(g, k) < v as real
  {
    IndexFrom(g, v as real, 0)
  }

  lemma IndexMonotone(g: real, v: int, w: int)
    requires g > 1.0 && 1 <= v <= w
    ensures Index(g, v) <= Index(g, w)
  {
    assert v as real <= Pow(g, Index(g, w));
  }

  /** `math.Round` on a non-negative number. */
  function Round(x: real): (r: int)
    requires x >= 0.0
    ensures x - 0.5 <= r as real <= x + 0.5
  {
    (x + 0.5).Floor
  }

  /** The unrounded value a bucket stands for. */
  function Midpoint(alpha: real, index: nat): (m: real)
    requires ValidAccuracy(alpha)
    ensures m == (1.0 - alpha) * Pow(Gamma(alpha), index)
    ensures m >= 0.0
  {
    var g := Gamma(alpha);
    var p := Pow(g, index);
    assert (1.0 + g) * (1.0 - alpha) == 2.0;
    assert 2.0 * p == (1.0 + g) * ((1.0 - alpha) * p);
    ScaleMonotone(1.0 - alpha, 0.0, p);
    2.0 * p / (1.0 + g)
  }

  /** The value a bucket stands for, clamped to the largest 64-bit integer. */
  function Estimate(alpha: real, index: nat): (e: int)
    requires ValidAccuracy(alpha)
    ensures 0 <= e <= MAX_INT64
  {
    var estimate := Round(Midpoint(alpha, index));
    if estimate >= MAX_INT64 then MAX_INT64 else estimate
  }

  lemma RoundMonotone(x: real, y: real)
    requires 0.0 <= x <= y
    ensures Round(x) <= Round(y)
  {
  }

  lemma ScaledInOrder(c: real, x: real, y: real, cx: real, cy: real)
    requires c >= 0.0 && x <= y && cx == c * x && cy == c * y
    ensures cx <= cy
  {
  }

  lemma MidpointMonotone(alpha: real, i: nat, j: nat)
    requires ValidAccuracy(alpha) && i <= j
    ensures Midpoint(alpha, i) <= Midpoint(alpha, j)
  {
    if i < j { PowIncreasing(Gamma(alpha), i, j); }
    ScaledInOrder(1.0 - alpha, Pow(Gamma(alpha), i), Pow(Gamma(alpha), j), Midpoint(alpha, i), Midpoint(alpha, j));
  }

  lemma EstimateMonotone(alpha: real, i: nat, j: nat)
    requires ValidAccuracy(alpha) && i <= j
    ensures Estimate(alpha, i) <= Estimate(alpha, j)
  {
    MidpointMonotone(alpha, i, j);
    RoundMonotone(Midpoint(alpha, i), Midpoint(alpha, j));
  }

  /** The unrounded estimate of a value's bucket is within the relative accuracy of the value. */
  lemma RelativeError(alpha: real, v: int)
    requires ValidAccuracy(alpha) && v >= 1
    ensures var m := Midpoint(alpha, Index(Gamma(alpha), v));
            v as real - alpha * v as real <= m <= v as real + alpha * v as real
  {
    var g, x := Gamma(alpha), v as real;
    var i := Index(g, v);
    var p := Pow(g, i);
    ScaleMonotone(1.0 - alpha, x, p);
    if i == 0 {
      ScaleMonotone(1.0 + alpha, 1.0, x);
    } else {
      var below := Pow(g, i - 1);
      assert (1.0 - alpha) * p == (g * (1.0 - alpha)) * below;
      ScaleMonotone(1.0 + alpha, below, x);
    }
  }

  /** Rounded and clamped, the estimate is within the relative accuracy plus one half. */
  lemma EstimateAccuracy(alpha: real, v: int)
    requires ValidAccuracy(alpha) && 1 <= v <= MAX_INT64
    ensures var e := Estimate(alpha, Index(Gamma(alpha), v));
            -(alpha * v as real + 0.5) <= (e - v) as real <= alpha * v as real + 0.5
  {
    RelativeError(alpha, v);
    ScaleMonotone(alpha, 0.0, v as real);
  }
}
