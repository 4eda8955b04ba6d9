/** The Wilson score interval over the reals: its equation, its bounds, and how it moves. */
module Wilson {
  import opened Text
  import opened Reals

  /** p is None when there are no observations. */
  datatype Interval = Interval(p: Option<real>, lo: real, hi: real)

  function Rate(k: nat, n: nat): real
    requires n > 0
  {
    k as real / n as real
  }

  /** The number under the square root. */
  function Under(k: nat, n: nat, z: real): real
    requires n > 0
  {
    Rate(k, n) * (1.0 - Rate(k, n)) / (n as real) + z * z / (4.0 * (n as real) * (n as real))
  }

  function Root(k: nat, n: nat, z: real, sqrt: real -> real): real
    requires n > 0
  {
    z * sqrt(Under(k, n, z))
  }

  /** The interval around a rate, given z squared, the trials and z times the root. */
  function Centred(p: real, z2: real, n: real, g: real): Interval
    requires n > 0.0 && 1.0 + z2 / n > 0.0
  {
    var d := 1.0 + z2 / n;
    var centre := (p + z2 / (2.0 * n)) / d;
    Interval(Some(p), Max(0.0, centre - g / d), Min(1.0, centre + g / d))
  }

  /** wilson, with the square root it is given. */
  function Score(k: nat, n: nat, z: real, sqrt: real -> real): Interval
    requires k <= n
  {
    if n == 0 then Interval(None, 0.0, 1.0)
    else
      Weighs(z, n as real);
      Centred(Rate(k, n), z * z, n as real, Root(k, n, z, sqrt))
  }

  lemma Weighs(z: real, n: real)
    requires n > 0.0
    ensures 1.0 + z * z / n > 0.0
  {
    SquareIsPositive(z);
    Quotient(z * z, n);
  }

  predicate Overlaps(a: Interval, b: Interval) {
    a.hi >= b.lo && b.hi >= a.lo
  }

  // ----- the interval in terms of the rate and the weight w = z*z/n

  /** g is z times the square root in the formula. */
  ghost predicate Spread(p: real, w: real, g: real) {
    0.0 <= p <= 1.0 && w > 0.0 && g >= 0.0 && g * g == w * p * (1.0 - p) + w * w / 4.0
  }

  function Lower(p: real, w: real, g: real): real
    requires w > 0.0
  {
    (p + w / 2.0 - g) / (1.0 + w)
  }

  function Upper(p: real, w: real, g: real): real
    requires w > 0.0
  {
    (p + w / 2.0 + g) / (1.0 + w)
  }

  lemma Mirrored(p: real, w: real, g: real)
    requires Spread(p, w, g)
    ensures Spread(1.0 - p, w, g) && Lower(1.0 - p, w, g) == 1.0 - Upper(p, w, g) && Upper(1.0 - p, w, g) == 1.0 - Lower(p, w, g)
  {
    assert w * (1.0 - p) * (1.0 - (1.0 - p)) == w * p * (1.0 - p);
    var d := 1.0 + w;
    Below(p + w / 2.0 + g, 0.0, d);
    Below(p + w / 2.0 - g, 0.0, d);
    Divided(1.0 - p + w / 2.0 - g, 1.0 - Upper(p, w, g), d);
    Divided(1.0 - p + w / 2.0 + g, 1.0 - Lower(p, w, g), d);
  }

  lemma LowerBounds(p: real, w: real, g: real)
    requires Spread(p, w, g)
    ensures 0.0 <= Lower(p, w, g) <= p
  {
    var d := 1.0 + w;
    SpreadAtMost(p, w, g);
    SpreadAtLeast(p, w, g);
    Below(p + w / 2.0 - g, 0.0, d);
    Below(p + w / 2.0 - g, p, d);
  }

  /** g never exceeds p + w/2: the lower bound needs no clamp. */
  lemma SpreadAtMost(p: real, w: real, g: real)
    requires Spread(p, w, g)
    ensures g <= p + w / 2.0
  {
    var y := p + w / 2.0;
    assert y * y == p * p + p * w + w * w / 4.0;
    SquareIsPositive(p);
    ProductIsPositive(w, p * p);
    assert w * p * (1.0 - p) == w * p - w * (p * p);
    SmallerRoot(g, y);
  }

  /** g is at least w(1/2 - p): the lower bound never passes the rate. */
  lemma SpreadAtLeast(p: real, w: real, g: real)
    requires Spread(p, w, g)
    ensures w / 2.0 - p * w <= g
  {
    var x := w / 2.0 - p * w;
    assert x * x == w * w / 4.0 - w * w * p + w * w * (p * p);
    var a := p * (1.0 - p);
    ProductIsPositive(p, 1.0 - p);
    ProductIsPositive(w, a);
    ProductIsPositive(w * w, a);
    assert w * p * (1.0 - p) == w * a;
    assert w * w * a == w * w * p - w * w * (p * p);
    SmallerRoot(x, g);
  }

  lemma Bounds(p: real, w: real, g: real)
    requires Spread(p, w, g)
    ensures 0.0 <= Lower(p, w, g) <= p <= Upper(p, w, g) <= 1.0
  {
    LowerBounds(p, w, g);
    Mirrored(p, w, g);
    LowerBounds(1.0 - p, w, g);
  }

  /** The quadratic whose roots the two bounds are. */
  function Gap(p: real, w: real, x: real): real {
    (p - x) * (p - x) - w * x * (1.0 - x)
  }

  lemma Factored(p: real, w: real, g: real, x: real)
    requires Spread(p, w, g)
    ensures Gap(p, w, x) == (1.0 + w) * (x - Lower(p, w, g)) * (x - Upper(p, w, g))
  {
    var d, m := 1.0 + w, p + w / 2.0;
    var lo, hi := Lower(p, w, g), Upper(p, w, g);
    Below(m - g, 0.0, d);
    Below(m + g, 0.0, d);
    assert lo * d == m - g && hi * d == m + g;
    Product(d, lo, hi, m, g);
    SumAndProduct(p, w, g, m);
    Cancel(d * lo * hi, p * p, d);
    Expanded(d, x, lo, hi, m);
    assert Gap(p, w, x) == d * x * x - (2.0 * m) * x + p * p;
  }

  lemma Expanded(d: real, x: real, lo: real, hi: real, m: real)
    requires lo * d + hi * d == 2.0 * m
    ensures d * (x - lo) * (x - hi) == d * x * x - (2.0 * m) * x + d * lo * hi
  {
    assert d * (x - lo) * (x - hi) == d * x * x - (lo * d + hi * d) * x + d * lo * hi;
  }

  lemma Product(d: real, lo: real, hi: real, m: real, g: real)
    requires d > 0.0 && lo * d == m - g && hi * d == m + g
    ensures (d * lo * hi) * d == m * m - g * g
  {
    assert (d * lo * hi) * d == (lo * d) * (hi * d);
    assert (m - g) * (m + g) == m * m - g * g;
  }

  lemma SumAndProduct(p: real, w: real, g: real, m: real)
    requires Spread(p, w, g) && m == p + w / 2.0
    ensures m * m - g * g == p * p * (1.0 + w)
  {
    assert m * m == p * p + p * w + w * w / 4.0;
    assert w * p * (1.0 - p) == w * p - w * (p * p);
  }

  /** The bounds are exactly the two solutions of (p - x)^2 = w x (1 - x). */
  lemma BoundsAreRoots(p: real, w: real, g: real, x: real)
    requires Spread(p, w, g)
    ensures Gap(p, w, x) == 0.0 <==> x == Lower(p, w, g) || x == Upper(p, w, g)
  {
    Factored(p, w, g, x);
    var lo, hi := Lower(p, w, g), Upper(p, w, g);
    if x != lo && x != hi { NonZero(1.0 + w, x - lo, x - hi); }
  }

  lemma SignLeft(d: real, x: real, lo: real, hi: real)
    requires d > 0.0 && x < lo <= hi
    ensures d * (x - lo) * (x - hi) > 0.0
  {
    var a, b := lo - x, hi - x;
    assert a * b > 0.0;
    assert d * (a * b) > 0.0;
    assert d * (x - lo) * (x - hi) == d * (a * b);
  }

  /** Left of both bounds the gap is positive. */
  lemma LeftOfBounds(p: real, w: real, g: real, x: real)
    requires Spread(p, w, g) && w > 0.0 && x < Lower(p, w, g)
    ensures Gap(p, w, x) > 0.0
  {
    hide Gap, Lower, Upper, Spread;
    Bounds(p, w, g);
    Factored(p, w, g, x);
    SignLeft(1.0 + w, x, Lower(p, w, g), Upper(p, w, g));
  }

  lemma GapGrows(p: real, q: real, w: real, x: real)
    requires x <= p <= q
    ensures Gap(p, w, x) <= Gap(q, w, x)
  {
    ProductIsPositive(q - p, (p - x) + (q - x));
    assert (q - x) * (q - x) == (p - x) * (p - x) + (q - p) * ((p - x) + (q - x));
  }

  /** A higher rate at the same weight never lowers the lower bound. */
  lemma LowerRises(p: real, q: real, w: real, g: real, h: real)
    requires Spread(p, w, g) && Spread(q, w, h) && p <= q && w > 0.0
    ensures Lower(p, w, g) <= Lower(q, w, h)
  {
    hide Gap, Lower, Upper, Spread;
    var x := Lower(q, w, h);
    if x < Lower(p, w, g) {
      LowerBounds(p, w, g);
      GapGrows(p, q, w, x);
      LeftOfBounds(p, w, g, x);
      BoundsAreRoots(q, w, h, x);
    }
  }

  lemma UpperRises(p: real, q: real, w: real, g: real, h: real)
    requires Spread(p, w, g) && Spread(q, w, h) && p <= q
    ensures Upper(p, w, g) <= Upper(q, w, h)
  {
    Mirrored(p, w, g);
    Mirrored(q, w, h);
    LowerRises(1.0 - q, 1.0 - p, w, h, g);
  }

  /** At a fixed rate, less weight (more trials) means a strictly narrower interval. */
  lemma Narrows(p: real, w: real, v: real, g: real, h: real)
    requires Spread(p, w, g) && Spread(p, v, h) && 0.0 < v < w
    ensures Upper(p, v, h) - Lower(p, v, h) < Upper(p, w, g) - Lower(p, w, g)
  {
    hide Spread, Lower, Upper;
    ScaledSpreads(p, w, v, g, h);
    Widths(p, w, g);
    Widths(p, v, h);
    Cross(h, 1.0 + v, g, 1.0 + w);
  }

  lemma ScaledSpreads(p: real, w: real, v: real, g: real, h: real)
    requires Spread(p, w, g) && Spread(p, v, h) && 0.0 < v < w
    ensures h * (1.0 + w) < g * (1.0 + v)
  {
    RateProduct(p);
    Squares(p * (1.0 - p), w, v);
    SquaredProduct(h, 1.0 + w);
    SquaredProduct(g, 1.0 + v);
    Reassociate(w, p);
    Reassociate(v, p);
    ProductIsPositive(g, 1.0 + v);
    StrictRoot(h * (1.0 + w), g * (1.0 + v));
  }

  lemma RateProduct(p: real)
    requires 0.0 <= p <= 1.0
    ensures 0.0 <= p * (1.0 - p) <= 0.25
  {
    ProductIsPositive(p, 1.0 - p);
    SquareIsPositive(p - 0.5);
    assert p * (1.0 - p) == 0.25 - (p - 0.5) * (p - 0.5);
  }

  lemma Widths(p: real, w: real, g: real)
    requires w > 0.0
    ensures Upper(p, w, g) - Lower(p, w, g) == 2.0 * (g / (1.0 + w))
  {
    var d, m := 1.0 + w, p + w / 2.0;
    Divided(m + g, m / d + g / d, d);
    Divided(m - g, m / d - g / d, d);
  }

  lemma Reassociate(w: real, p: real)
    ensures w * p * (1.0 - p) == w * (p * (1.0 - p))
  {}

  lemma Difference(a: real, w: real, v: real)
    ensures (w * a + w * w / 4.0) * ((1.0 + v) * (1.0 + v)) - (v * a + v * v / 4.0) * ((1.0 + w) * (1.0 + w))
            == (w - v) * (a + (w + v) / 4.0 + v * w * (0.5 - a))
  {}

  lemma Squares(a: real, w: real, v: real)
    requires 0.0 <= a <= 0.25 && 0.0 < v < w
    ensures (v * a + v * v / 4.0) * ((1.0 + w) * (1.0 + w)) < (w * a + w * w / 4.0) * ((1.0 + v) * (1.0 + v))
  {
    var vw := v * w;
    assert vw >= 0.0;
    ProductIsPositive(vw, 0.5 - a);
    var rest := a + (w + v) / 4.0 + vw * (0.5 - a);
    StrictProduct(w - v, rest);
    Difference(a, w, v);
  }

  // ----- the interval the dashboard computes

  function Weight(n: nat, z: real): real
    requires n > 0
  {
    z * z / (n as real)
  }

  lemma RateIsFraction(k: nat, n: nat)
    requires 0 < n && k <= n
    ensures 0.0 <= Rate(k, n) <= 1.0 && Rate(k, n) * n as real == k as real
  {
    Below(k as real, 0.0, n as real);
    Below(k as real, 1.0, n as real);
  }

  lemma RadicandIsPositive(a: real, z2: real, n: real)
    requires a >= 0.0 && z2 >= 0.0 && n > 0.0
    ensures a / n + z2 / (4.0 * n * n) >= 0.0
  {
    PositiveAs(4.0 * n, n, 4.0 * n * n);
    SumOfQuotients(a, n, z2, 4.0 * n * n);
  }

  lemma RootSquared(z: real, r: real, x: real)
    requires r * r == x
    ensures (z * r) * (z * r) == z * z * x
  {
    SquaredProduct(z, r);
  }

  lemma Radicand(z2: real, a: real, n: real, w: real, x: real)
    requires n > 0.0 && w * n == z2 && x == a / n + z2 / (4.0 * n * n)
    ensures z2 * x == w * a + w * w / 4.0
  {
    PositiveAs(4.0 * n, n, 4.0 * n * n);
    var q, b := a / n, z2 / (4.0 * n * n);
    assert q * n == a && b * (4.0 * n * n) == z2;
    assert (4.0 * n * b) * n == w * n;
    Cancel(4.0 * n * b, w, n);
    assert z2 * q == w * (q * n);
    assert z2 * b == w * (n * b);
    assert z2 * x == z2 * q + z2 * b;
  }

  lemma UnderIs(k: nat, n: nat, z: real)
    requires 0 < n && k <= n && z > 0.0
    ensures Under(k, n, z) >= 0.0
    ensures var w, p := Weight(n, z), Rate(k, n); z * z * Under(k, n, z) == w * p * (1.0 - p) + w * w / 4.0
  {
    var p, trials := Rate(k, n), n as real;
    var a := p * (1.0 - p);
    RateIsFraction(k, n);
    RateProduct(p);
    SquareIsPositive(z);
    RadicandIsPositive(a, z * z, trials);
    WeightTimes(n, z);
    Radicand(z * z, a, trials, Weight(n, z), Under(k, n, z));
    Reassociate(Weight(n, z), p);
  }

  lemma ScoreSpreads(k: nat, n: nat, z: real, sqrt: real -> real)
    requires 0 < n && k <= n && z > 0.0 && IsSqrt(sqrt)
    ensures Spread(Rate(k, n), Weight(n, z), Root(k, n, z, sqrt))
  {
    hide Rate, Weight, Under;
    var r := sqrt(Under(k, n, z));
    RateIsFraction(k, n);
    WeightTimes(n, z);
    UnderIs(k, n, z);
    SqrtIs(sqrt, Under(k, n, z));
    RootSquared(z, r, Under(k, n, z));
    ProductIsPositive(z, r);
  }

  lemma WeightTimes(n: nat, z: real)
    requires n > 0 && z > 0.0
    ensures Weight(n, z) * n as real == z * z && Weight(n, z) > 0.0
  {
    PositiveAs(z, z, z * z);
    QuotientTimes(z * z, n as real);
  }

  ghost predicate Unclamped(i: Interval, p: real, w: real, g: real)
    requires w > 0.0
  {
    i == Interval(Some(p), Lower(p, w, g), Upper(p, w, g))
  }

  /** The formula as the dashboard writes it, before clamping. */
  lemma CentreAndHalf(p: real, n: real, z2: real, w: real, g: real)
    requires n > 0.0 && w > 0.0 && w * n == z2
    ensures z2 / n == w && z2 / (2.0 * n) == w / 2.0
    ensures (p + z2 / (2.0 * n)) / (1.0 + z2 / n) - g / (1.0 + z2 / n) == Lower(p, w, g)
    ensures (p + z2 / (2.0 * n)) / (1.0 + z2 / n) + g / (1.0 + z2 / n) == Upper(p, w, g)
  {
    Divided(z2, w, n);
    Divided(z2, w / 2.0, 2.0 * n);
    var d, m := 1.0 + w, p + w / 2.0;
    Divided(m - g, m / d - g / d, d);
    Divided(m + g, m / d + g / d, d);
  }

  /** Both clamps are redundant: the interval is the pair of roots around the rate. */
  lemma ScoreIs(k: nat, n: nat, z: real, sqrt: real -> real)
    requires 0 < n && k <= n && z > 0.0 && IsSqrt(sqrt)
    ensures var p, w, g := Rate(k, n), Weight(n, z), Root(k, n, z, sqrt);
      w > 0.0 && Spread(p, w, g) && Unclamped(Score(k, n, z, sqrt), p, w, g)
  {
    hide Spread, Lower, Upper, Rate, Weight, Root, Under, Max, Min;
    var p, w, g := Rate(k, n), Weight(n, z), Root(k, n, z, sqrt);
    WeightTimes(n, z);
    ScoreSpreads(k, n, z, sqrt);
    Bounds(p, w, g);
    CentreAndHalf(p, n as real, z * z, w, g);
    InUnit(Lower(p, w, g), Upper(p, w, g));
  }

  lemma InUnit(lo: real, hi: real)
    requires 0.0 <= lo && hi <= 1.0
    ensures Max(0.0, lo) == lo && Min(1.0, hi) == hi
  {}

  /** The interval holds the rate and stays in the unit interval; its ends solve n(p - x)^2 = z^2 x(1 - x). */
  lemma ScoreHoldsRate(k: nat, n: nat, z: real, sqrt: real -> real)
    requires 0 < n && k <= n && z > 0.0 && IsSqrt(sqrt)
    ensures var i := Score(k, n, z, sqrt);
      && i.p == Some(Rate(k, n)) && 0.0 <= i.lo <= Rate(k, n) <= i.hi <= 1.0
      && forall x {:trigger Solves(Rate(k, n), n as real, z * z, x)} :: Solves(Rate(k, n), n as real, z * z, x) <==> x == i.lo || x == i.hi
  {
    hide Spread, Lower, Upper, Score, Rate, Weight, Root, Solves;
    var p, w, g := Rate(k, n), Weight(n, z), Root(k, n, z, sqrt);
    ScoreIs(k, n, z, sqrt);
    Bounds(p, w, g);
    WeightTimes(n, z);
    SolvedByBounds(p, w, g, n as real, z * z);
  }

  lemma SolvedByBounds(p: real, w: real, g: real, n: real, z2: real)
    requires Spread(p, w, g) && w > 0.0 && n > 0.0 && w * n == z2
    ensures forall x {:trigger Solves(p, n, z2, x)} :: Solves(p, n, z2, x) <==> x == Lower(p, w, g) || x == Upper(p, w, g)
  {
    hide Spread, Lower, Upper, Solves;
    forall x {:trigger Solves(p, n, z2, x)} ensures Solves(p, n, z2, x) <==> x == Lower(p, w, g) || x == Upper(p, w, g) {
      BoundsAreRoots(p, w, g, x);
      ScaledGap(p, w, x, n, z2);
    }
  }

  /** The score equation: n(p - x)^2 = z^2 x(1 - x). */
  predicate Solves(p: real, n: real, z2: real, x: real) {
    n * ((p - x) * (p - x)) == z2 * (x * (1.0 - x))
  }

  lemma ScaledGap(p: real, w: real, x: real, n: real, z2: real)
    requires n > 0.0 && w * n == z2
    ensures Gap(p, w, x) == 0.0 <==> Solves(p, n, z2, x)
  {
    assert n * Gap(p, w, x) == n * ((p - x) * (p - x)) - z2 * (x * (1.0 - x));
    if n * ((p - x) * (p - x)) == z2 * (x * (1.0 - x)) { Cancel(Gap(p, w, x), 0.0, n); }
  }

  lemma SignBetween(d: real, x: real, lo: real, hi: real)
    requires d > 0.0 && lo <= hi
    ensures d * (x - lo) * (x - hi) <= 0.0 <==> lo <= x <= hi
  {
    if x < lo {
      SignLeft(d, x, lo, hi);
    } else if hi < x {
      StrictProduct(d, x - lo);
      StrictProduct(d * (x - lo), x - hi);
    } else {
      ProductIsPositive(d, x - lo);
      ProductIsPositive(d * (x - lo), hi - x);
      assert d * (x - lo) * (x - hi) == -(d * (x - lo) * (hi - x));
    }
  }

  lemma ScaledSign(n: real, gap: real)
    requires n > 0.0
    ensures n * gap <= 0.0 <==> gap <= 0.0
  {
    if gap > 0.0 { StrictProduct(n, gap); } else { ProductIsPositive(n, -gap); assert n * gap == -(n * -gap); }
  }

  lemma GapTimes(n: real, p: real, w: real, x: real, z2: real)
    requires w * n == z2
    ensures n * Gap(p, w, x) == n * ((p - x) * (p - x)) - z2 * (x * (1.0 - x))
  {}

  /** The interval is exactly the rates x that the score test cannot tell from the observed one. */
  lemma ScoreIsSublevel(k: nat, n: nat, z: real, sqrt: real -> real, x: real)
    requires 0 < n && k <= n && z > 0.0 && IsSqrt(sqrt)
    ensures var p := Rate(k, n);
      Score(k, n, z, sqrt).lo <= x <= Score(k, n, z, sqrt).hi <==> n as real * ((p - x) * (p - x)) <= z * z * (x * (1.0 - x))
  {
    hide Spread, Lower, Upper, Score, Rate, Weight, Root, Gap;
    var p, w, g := Rate(k, n), Weight(n, z), Root(k, n, z, sqrt);
    ScoreIs(k, n, z, sqrt);
    Bounds(p, w, g);
    WeightTimes(n, z);
    Factored(p, w, g, x);
    SignBetween(1.0 + w, x, Lower(p, w, g), Upper(p, w, g));
    ScaledSign(n as real, Gap(p, w, x));
    GapTimes(n as real, p, w, x, z * z);
  }

  /** More successes never lower either end. */
  lemma ScoreRises(j: nat, k: nat, n: nat, z: real, sqrt: real -> real)
    requires 0 < n && j <= k <= n && z > 0.0 && IsSqrt(sqrt)
    ensures Score(j, n, z, sqrt).lo <= Score(k, n, z, sqrt).lo && Score(j, n, z, sqrt).hi <= Score(k, n, z, sqrt).hi
  {
    hide Spread, Lower, Upper, Score, Rate, Weight, Root;
    ScoreIs(j, n, z, sqrt);
    ScoreIs(k, n, z, sqrt);
    RateRises(j, k, n);
    LowerRises(Rate(j, n), Rate(k, n), Weight(n, z), Root(j, n, z, sqrt), Root(k, n, z, sqrt));
    UpperRises(Rate(j, n), Rate(k, n), Weight(n, z), Root(j, n, z, sqrt), Root(k, n, z, sqrt));
  }

  lemma RateRises(j: nat, k: nat, n: nat)
    requires 0 < n && j <= k <= n
    ensures Rate(j, n) <= Rate(k, n)
  {
    RateIsFraction(j, n);
    RateIsFraction(k, n);
    if Rate(j, n) > Rate(k, n) { StrictProduct(Rate(j, n) - Rate(k, n), n as real); }
  }

  /** Counting failures instead mirrors the interval. */
  lemma ScoreMirrors(k: nat, n: nat, z: real, sqrt: real -> real)
    requires 0 < n && k <= n && z > 0.0 && IsSqrt(sqrt)
    ensures Score(n - k, n, z, sqrt).lo == 1.0 - Score(k, n, z, sqrt).hi && Score(n - k, n, z, sqrt).hi == 1.0 - Score(k, n, z, sqrt).lo
  {
    hide Spread, Lower, Upper, Score, Weight, Rate, Under, Root;
    ScoreIs(k, n, z, sqrt);
    ScoreIs(n - k, n, z, sqrt);
    RateMirrors(k, n);
    Mirrored(Rate(k, n), Weight(n, z), Root(k, n, z, sqrt));
    SameRoot(k, n, z, sqrt);
  }

  lemma SameRoot(k: nat, n: nat, z: real, sqrt: real -> real)
    requires 0 < n && k <= n
    ensures Root(n - k, n, z, sqrt) == Root(k, n, z, sqrt)
  {
    hide Under;
    SameUnder(k, n, z);
  }

  lemma RateMirrors(k: nat, n: nat)
    requires 0 < n && k <= n
    ensures Rate(n - k, n) == 1.0 - Rate(k, n)
  {
    RateIsFraction(k, n);
    Divided((n - k) as real, 1.0 - Rate(k, n), n as real);
  }

  lemma SameUnder(k: nat, n: nat, z: real)
    requires 0 < n && k <= n
    ensures Under(n - k, n, z) == Under(k, n, z)
  {
    RateMirrors(k, n);
    var p := Rate(k, n);
    assert (1.0 - p) * (1.0 - (1.0 - p)) == p * (1.0 - p);
  }

  /** At the same observed rate, more trials narrow the interval strictly. */
  lemma ScoreNarrows(k: nat, n: nat, j: nat, m: nat, z: real, sqrt: real -> real)
    requires 0 < n < m && k <= n && j <= m && k * m == j * n && z > 0.0 && IsSqrt(sqrt)
    ensures Score(j, m, z, sqrt).hi - Score(j, m, z, sqrt).lo < Score(k, n, z, sqrt).hi - Score(k, n, z, sqrt).lo
  {
    hide Spread, Lower, Upper, Score, Root, Rate, Weight;
    ScoreIs(k, n, z, sqrt);
    ScoreIs(j, m, z, sqrt);
    SameRate(k, n, j, m);
    WeightFalls(n, m, z);
    Narrows(Rate(k, n), Weight(n, z), Weight(m, z), Root(k, n, z, sqrt), Root(j, m, z, sqrt));
  }

  lemma SameRate(k: nat, n: nat, j: nat, m: nat)
    requires 0 < n && 0 < m && k * m == j * n && k <= n && j <= m
    ensures Rate(k, n) == Rate(j, m)
  {
    hide Rate;
    RateIsFraction(k, n);
    RateIsFraction(j, m);
    RealProduct(k, m);
    RealProduct(j, n);
    SameRatio(Rate(k, n), Rate(j, m), n as real, m as real, k as real, j as real);
  }

  lemma RealProduct(a: nat, b: nat)
    ensures (a * b) as real == a as real * b as real
  {}

  lemma SameRatio(a: real, b: real, x: real, y: real, u: real, v: real)
    requires x > 0.0 && y > 0.0 && a * x == u && b * y == v && u * y == v * x
    ensures a == b
  {
    StrictProduct(x, y);
    assert a * (x * y) == u * y && b * (x * y) == v * x;
    Cancel(a, b, x * y);
  }

  lemma Crossed(v: real, w: real, x: real, y: real)
    ensures v * y == w * x + (v - w) * x + v * (y - x)
  {}

  lemma WeightFalls(n: nat, m: nat, z: real)
    requires 0 < n < m && z > 0.0
    ensures 0.0 < Weight(m, z) < Weight(n, z)
  {
    WeightTimes(n, z);
    WeightTimes(m, z);
    var w, v, x, y := Weight(n, z), Weight(m, z), n as real, m as real;
    if v >= w {
      ProductIsPositive(v - w, x);
      StrictProduct(v, y - x);
      Crossed(v, w, x, y);
    }
  }
}
