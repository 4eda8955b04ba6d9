/** Replay runs circle their own pair: one step of the local physics, and why it never lets a run out of its orbit. */
module ReplayOrbits {
  import opened Text
  import opened Reals

  const SPRING := 0.045
  const REPULSION := 52000.0
  const DAMPING := 0.82
  const STEP := 0.55
  const MIN_SEPARATION := 62.0
  const ORBIT_LIMIT := 1.4

  datatype Point = Point(x: real, y: real)

  /** A body's position and velocity. */
  datatype Motion = Motion(x: real, y: real, vx: real, vy: real)

  /** Math.hypot: a nonnegative root of the squared distance. */
  ghost predicate IsHypot(hypot: (real, real) -> real) {
    forall x, y :: hypot(x, y) >= 0.0 && hypot(x, y) * hypot(x, y) == x * x + y * y
  }

  function Distance(hypot: (real, real) -> real, a: Point, b: Point): real {
    hypot(b.x - a.x, b.y - a.y)
  }

  function FamilyRadius(count: nat, pi: real): real
    requires pi > 0.0
  {
    var fit := count as real * MIN_SEPARATION / (2.0 * pi);
    if fit > 90.0 then fit else 90.0
  }

  // ----- one run, one step

  /** The spring towards the orbit; a run on top of its pair leaves in a direction of its own. */
  function Sprung(hypot: (real, real) -> real, b: Motion, pair: Point, radius: real, away: Point): Motion {
    var d := hypot(b.x - pair.x, b.y - pair.y);
    if d < 0.01 then b.(vx := b.vx - Pull(away.x * 0.01, 0.01, radius), vy := b.vy - Pull(away.y * 0.01, 0.01, radius))
    else b.(vx := b.vx - Pull(b.x - pair.x, d, radius), vy := b.vy - Pull(b.y - pair.y, d, radius))
  }

  /** One coordinate of the spring's pull towards the orbit. */
  function Pull(delta: real, distance: real, radius: real): real
    requires distance > 0.0
  {
    delta / distance * (distance - radius) * SPRING
  }

  function Pushed(hypot: (real, real) -> real, b: Motion, other: Point): Motion {
    var gap := Max(1.0, hypot(b.x - other.x, b.y - other.y));
    assert gap * gap >= 1.0;
    b.(vx := b.vx + (b.x - other.x) / gap * REPULSION / (gap * gap), vy := b.vy + (b.y - other.y) / gap * REPULSION / (gap * gap))
  }

  function PushedByAll(hypot: (real, real) -> real, b: Motion, others: seq<Point>): Motion {
    if others == [] then b
    else Pushed(hypot, PushedByAll(hypot, b, others[..|others| - 1]), others[|others| - 1])
  }

  function Drifted(b: Motion): Motion {
    var vx, vy := b.vx * DAMPING, b.vy * DAMPING;
    Motion(b.x + vx * STEP, b.y + vy * STEP, vx, vy)
  }

  /** Past the limit, a run is put back on it, at rest. */
  function Kept(hypot: (real, real) -> real, b: Motion, pair: Point, limit: real): Motion
    requires limit >= 0.0
  {
    var d := hypot(b.x - pair.x, b.y - pair.y);
    if d > limit then Motion(pair.x + (b.x - pair.x) / d * limit, pair.y + (b.y - pair.y) / d * limit, 0.0, 0.0) else b
  }

  function Stepped(hypot: (real, real) -> real, b: Motion, pair: Point, radius: real, limit: real, away: Point, others: seq<Point>): Motion
    requires limit >= 0.0
  {
    Kept(hypot, Drifted(PushedByAll(hypot, Sprung(hypot, b, pair, radius, away), others)), pair, limit)
  }

  // ----- what each force does

  /** A family's circle: ninety at least, and otherwise just long enough for sixty-two a run. */
  lemma RadiusIs(count: nat, pi: real)
    requires pi > 0.0
    ensures var r := FamilyRadius(count, pi);
      && r >= 90.0 && r * (2.0 * pi) >= count as real * 62.0 && (r == 90.0 || r * (2.0 * pi) == count as real * 62.0)
  {
    var need, round := count as real * MIN_SEPARATION, 2.0 * pi;
    Below(need, 90.0, round);
    if need / round <= 90.0 { ProductIsPositive(90.0 - need / round, round); assert (90.0 - need / round) * round == 90.0 * round - need; }
  }

  /** The spring pushes along the line to the pair: inwards beyond the circle, outwards inside it, by 0.045 of what is missing. */
  lemma SpringIs(hypot: (real, real) -> real, b: Motion, pair: Point, radius: real, away: Point)
    requires IsHypot(hypot) && hypot(b.x - pair.x, b.y - pair.y) >= 0.01
    ensures var d, after := hypot(b.x - pair.x, b.y - pair.y), Sprung(hypot, b, pair, radius, away);
      && after.x == b.x && after.y == b.y
      && (after.vx - b.vx) * d == (b.x - pair.x) * (radius - d) * 0.045
      && (after.vy - b.vy) * d == (b.y - pair.y) * (radius - d) * 0.045
  {
    var d := hypot(b.x - pair.x, b.y - pair.y);
    PullTimes(b.x - pair.x, d, radius);
    PullTimes(b.y - pair.y, d, radius);
  }

  lemma PullTimes(delta: real, d: real, radius: real)
    requires d > 0.0
    ensures -Pull(delta, d, radius) * d == delta * (radius - d) * 0.045
  {
    var q := delta / d;
    assert q * d == delta;
    assert q * (d - radius) * 0.045 * d == (q * d) * ((d - radius) * 0.045);
  }

  /** On top of its pair a run leaves in its own direction, as from a hundredth away. */
  lemma LeavesAway(hypot: (real, real) -> real, b: Motion, pair: Point, radius: real, away: Point)
    requires hypot(b.x - pair.x, b.y - pair.y) < 0.01
    ensures var after := Sprung(hypot, b, pair, radius, away);
      && after.x == b.x && after.y == b.y
      && after.vx - b.vx == away.x * (radius - 0.01) * 0.045 && after.vy - b.vy == away.y * (radius - 0.01) * 0.045
  {
    PullTimes(away.x * 0.01, 0.01, radius);
    PullTimes(away.y * 0.01, 0.01, radius);
  }

  /** Another run pushes straight away from itself, by 52000 over the square of the gap, the gap never less than one. */
  lemma PushIs(hypot: (real, real) -> real, b: Motion, other: Point)
    requires IsHypot(hypot)
    ensures var d, after := hypot(b.x - other.x, b.y - other.y), Pushed(hypot, b, other);
      var gap := if d < 1.0 then 1.0 else d;
      && after.x == b.x && after.y == b.y
      && (after.vx - b.vx) * gap * gap * gap == (b.x - other.x) * 52000.0
      && (after.vy - b.vy) * gap * gap * gap == (b.y - other.y) * 52000.0
  {
    var gap := Max(1.0, hypot(b.x - other.x, b.y - other.y));
    assert gap * gap >= 1.0;
    PushTimes(b.x - other.x, gap);
    PushTimes(b.y - other.y, gap);
  }

  /** The step itself: 0.82 of the velocity is kept, and 0.55 of that is moved. */
  lemma DriftIs(b: Motion)
    ensures var after := Drifted(b);
      && after.vx == 0.82 * b.vx && after.vy == 0.82 * b.vy && after.x == b.x + 0.55 * after.vx && after.y == b.y + 0.55 * after.vy
  {}

  /** Inside its limit a run is left alone; past it, it is put at the limit on the same line from its pair, at rest. */
  lemma KeptIs(hypot: (real, real) -> real, b: Motion, pair: Point, limit: real)
    requires IsHypot(hypot) && limit >= 0.0
    ensures var d, after := hypot(b.x - pair.x, b.y - pair.y), Kept(hypot, b, pair, limit);
      && (d <= limit ==> after == b)
      && (d > limit ==> (after.x - pair.x) * d == (b.x - pair.x) * limit && (after.y - pair.y) * d == (b.y - pair.y) * limit
                        && after.vx == 0.0 && after.vy == 0.0)
  {
    var d := hypot(b.x - pair.x, b.y - pair.y);
    if d > limit {
      Shortened(b.x - pair.x, d, limit);
      Shortened(b.y - pair.y, d, limit);
    }
  }

  lemma Shortened(delta: real, d: real, limit: real)
    requires d > 0.0
    ensures delta / d * limit * d == delta * limit
  {
    var q := delta / d;
    assert q * d == delta;
    assert q * limit * d == q * d * limit;
  }

  lemma PushTimes(delta: real, gap: real)
    requires gap >= 1.0 && gap * gap >= 1.0
    ensures delta / gap * REPULSION / (gap * gap) * gap * gap * gap == delta * 52000.0
  {
    var q := delta / gap;
    var p := q * REPULSION / (gap * gap);
    assert q * gap == delta && p * (gap * gap) == q * REPULSION;
    assert p * gap * gap * gap == (p * (gap * gap)) * gap;
    assert q * REPULSION * gap == (q * gap) * REPULSION;
  }

  // ----- distances

  lemma HypotIs(hypot: (real, real) -> real, x: real, y: real, r: real)
    requires IsHypot(hypot) && r >= 0.0 && r * r == x * x + y * y
    ensures hypot(x, y) == r
  {
    var h := hypot(x, y);
    SmallerRoot(h, r);
    SmallerRoot(r, h);
  }

  lemma Scaled(hypot: (real, real) -> real, x: real, y: real, d: real, limit: real, a: real, b: real)
    requires IsHypot(hypot) && d == hypot(x, y) && d > 0.0 && limit >= 0.0 && a == x / d * limit && b == y / d * limit
    ensures hypot(a, b) == limit
  {
    var u, v := x / d, y / d;
    assert u * d == x && v * d == y;
    UnitVector(u, v, d, x, y);
    ScaledSquares(u, v, limit);
    assert a * a == (u * limit) * (u * limit) && b * b == (v * limit) * (v * limit);
    HypotIs(hypot, a, b, limit);
  }

  lemma UnitVector(u: real, v: real, d: real, x: real, y: real)
    requires d > 0.0 && u * d == x && v * d == y && d * d == x * x + y * y
    ensures u * u + v * v == 1.0
  {
    assert x * x == (u * u) * (d * d) && y * y == (v * v) * (d * d);
    PositiveAs(d, d, d * d);
    Cancel(u * u + v * v, 1.0, d * d);
  }

  lemma ScaledSquares(u: real, v: real, limit: real)
    requires u * u + v * v == 1.0
    ensures (u * limit) * (u * limit) + (v * limit) * (v * limit) == limit * limit
  {
    assert (u * limit) * (u * limit) + (v * limit) * (v * limit) == (u * u + v * v) * (limit * limit);
  }

  /** However hard it was pushed, a run ends the step inside its limit. */
  lemma SteppedStaysInOrbit(hypot: (real, real) -> real, b: Motion, pair: Point, radius: real, limit: real, away: Point, others: seq<Point>)
    requires IsHypot(hypot) && limit >= 0.0
    ensures var after := Stepped(hypot, b, pair, radius, limit, away, others); hypot(after.x - pair.x, after.y - pair.y) <= limit
  {
    hide Drifted, PushedByAll, Sprung;
    KeptInside(hypot, Drifted(PushedByAll(hypot, Sprung(hypot, b, pair, radius, away), others)), pair, limit);
  }

  lemma KeptInside(hypot: (real, real) -> real, b: Motion, pair: Point, limit: real)
    requires IsHypot(hypot) && limit >= 0.0
    ensures var after := Kept(hypot, b, pair, limit); hypot(after.x - pair.x, after.y - pair.y) <= limit
  {
    var dx, dy := b.x - pair.x, b.y - pair.y;
    var d := hypot(dx, dy);
    if d > limit {
      var after := Kept(hypot, b, pair, limit);
      Scaled(hypot, dx, dy, d, limit, after.x - pair.x, after.y - pair.y);
    }
  }

  // ----- the triangle inequality

  lemma CauchySchwarz(a: real, b: real, c: real, d: real, p: real, q: real)
    requires p >= 0.0 && q >= 0.0 && p * p == a * a + b * b && q * q == c * c + d * d
    ensures a * c + b * d <= p * q
  {
    var s := a * c + b * d;
    SquareIsPositive(a * d - b * c);
    assert (p * q) * (p * q) == (p * p) * (q * q);
    assert (a * a + b * b) * (c * c + d * d) == s * s + (a * d - b * c) * (a * d - b * c);
    ProductIsPositive(p, q);
    SmallerRoot(s, p * q);
  }

  lemma Triangle(hypot: (real, real) -> real, a: Point, b: Point, c: Point)
    requires IsHypot(hypot)
    ensures Distance(hypot, a, c) <= Distance(hypot, a, b) + Distance(hypot, b, c)
  {
    var x, y, u, v := b.x - a.x, b.y - a.y, c.x - b.x, c.y - b.y;
    var p, q, r := hypot(x, y), hypot(u, v), hypot(x + u, y + v);
    assert c.x - a.x == x + u && c.y - a.y == y + v;
    CauchySchwarz(x, y, u, v, p, q);
    SumOfSides(x, y, u, v, p, q, r);
  }

  lemma SumOfSides(x: real, y: real, u: real, v: real, p: real, q: real, r: real)
    requires p >= 0.0 && q >= 0.0 && r >= 0.0 && p * p == x * x + y * y && q * q == u * u + v * v
    requires r * r == (x + u) * (x + u) + (y + v) * (y + v) && x * u + y * v <= p * q
    ensures r <= p + q
  {
    assert r * r == p * p + q * q + 2.0 * (x * u + y * v);
    assert (p + q) * (p + q) == p * p + q * q + 2.0 * (p * q);
    SmallerRoot(r, p + q);
  }

  lemma Reversed(hypot: (real, real) -> real, a: Point, b: Point)
    requires IsHypot(hypot)
    ensures Distance(hypot, a, b) == Distance(hypot, b, a)
  {
    var x, y := b.x - a.x, b.y - a.y;
    assert (-x) * (-x) + (-y) * (-y) == x * x + y * y;
    HypotIs(hypot, -x, -y, hypot(x, y));
  }

  /** Two runs inside their own pairs' orbits are no nearer than what is left between the pairs. */
  lemma OrbitsStayApart(hypot: (real, real) -> real, run: Point, pair: Point, other: Point, otherPair: Point, limit: real, otherLimit: real)
    requires IsHypot(hypot) && Distance(hypot, pair, run) <= limit && Distance(hypot, otherPair, other) <= otherLimit
    ensures Distance(hypot, run, other) >= Distance(hypot, pair, otherPair) - limit - otherLimit
  {
    hide Distance, IsHypot;
    Triangle(hypot, pair, run, otherPair);
    Triangle(hypot, run, other, otherPair);
    Reversed(hypot, otherPair, other);
  }

  /** Inside 49% of the way to another pair, a run is strictly nearer its own. */
  lemma NearerItsOwn(hypot: (real, real) -> real, run: Point, pair: Point, otherPair: Point)
    requires IsHypot(hypot) && Distance(hypot, pair, otherPair) > 0.0
    requires Distance(hypot, pair, run) <= 0.49 * Distance(hypot, pair, otherPair)
    ensures Distance(hypot, pair, run) < Distance(hypot, otherPair, run)
  {
    hide Distance, IsHypot;
    Triangle(hypot, pair, run, otherPair);
    Reversed(hypot, run, otherPair);
  }
}
