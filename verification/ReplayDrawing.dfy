/** The replay half of layoutGraph: seed the families, settle them, read the positions off; and what the drawing then promises. */
module ReplayDrawing {
  import opened Text
  import opened Reals
  import opened ReplayOrbits
  import opened ReplayLayout
  import opened ReplaySlots
  import opened ReplaySeeds
  import opened Order

  /** What the step computes with: each run leaves its pair in the direction of its own turn. */
  function WorldOf(d: Drawing): World {
    World(d.hypot, d.pi, (id: string) => Point(d.cos(d.turn(id) * d.pi * 2.0), d.sin(d.turn(id) * d.pi * 2.0)))
  }

  lemma WorldIsPhysical(d: Drawing)
    requires Faithful(d)
    ensures Physical(WorldOf(d)) && WorldOf(d).hypot == d.hypot && WorldOf(d).pi == d.pi
  {}

  // ----- bodies for the nodes

  /** A pinned node starts, and stays, where it was dropped. */
  function StartOf(seeds: map<string, Point>, pinned: map<string, Point>, id: string): Point
    requires id in seeds
  {
    if id in pinned then pinned[id] else seeds[id]
  }

  ghost predicate BodyOf(b: Body, seeds: map<string, Point>, pinned: map<string, Point>, id: string)
    requires id in seeds
  {
    b.id == id && b.pinned == (id in pinned)
  }

  ghost predicate Embodied(bodies: map<string, Body>, seeds: map<string, Point>, pinned: map<string, Point>) {
    bodies.Keys == seeds.Keys && forall id :: id in bodies ==> BodyOf(bodies[id], seeds, pinned, id)
  }

  /** bodiesFrom: one body a node, at rest at its pin or its seed. */
  method BodiesFrom(seeds: map<string, Point>, pinned: map<string, Point>) returns (bodies: map<string, Body>)
    ensures Embodied(bodies, seeds, pinned)
    ensures forall id :: id in bodies ==> fresh(bodies[id]) && bodies[id].Spot() == StartOf(seeds, pinned, id)
  {
    var ids := SortedKeys(seeds.Keys);
    bodies := map[];
    for i := 0 to |ids|
      invariant forall id :: id in bodies <==> id in ids[..i]
      invariant forall id :: id in bodies ==> id in seeds && BodyOf(bodies[id], seeds, pinned, id)
      invariant forall id :: id in bodies ==> fresh(bodies[id]) && bodies[id].Spot() == StartOf(seeds, pinned, id)
    {
      assert ids[i] in ids;
      var body := new Body(ids[i], StartOf(seeds, pinned, ids[i]), ids[i] in pinned);
      bodies := bodies[ids[i] := body];
      assert ids[..i + 1] == ids[..i] + [ids[i]];
    }
    assert ids[..|ids|] == ids;
  }

  ghost predicate Matches(o: Family, f: ReplayFamily, bodies: map<string, Body>) {
    && f.pair in bodies && o.pair == bodies[f.pair] && |o.runs| == |f.runs|
    && forall k :: 0 <= k < |f.runs| ==> f.runs[k] in bodies && o.runs[k] == bodies[f.runs[k]]
  }

  ghost predicate AllMatch(objects: seq<Family>, families: seq<ReplayFamily>, bodies: map<string, Body>) {
    |objects| == |families| && forall i :: 0 <= i < |objects| ==> Matches(objects[i], families[i], bodies)
  }

  method FamilyOf(f: ReplayFamily, bodies: map<string, Body>) returns (o: Family)
    requires f.pair in bodies && forall r :: r in f.runs ==> r in bodies
    ensures Matches(o, f, bodies)
  {
    var runs: seq<Body> := [];
    for k := 0 to |f.runs|
      invariant |runs| == k && forall m :: 0 <= m < k ==> f.runs[m] in bodies && runs[m] == bodies[f.runs[m]]
    {
      assert f.runs[k] in f.runs;
      runs := runs + [bodies[f.runs[k]]];
    }
    o := new Family(bodies[f.pair], runs);
  }

  method FamiliesOf(families: seq<ReplayFamily>, bodies: map<string, Body>) returns (objects: seq<Family>)
    requires forall id :: IsNode(families, id) ==> id in bodies
    ensures AllMatch(objects, families, bodies)
  {
    hide Matches;
    objects := [];
    for i := 0 to |families|
      invariant |objects| == i && forall m :: 0 <= m < i ==> Matches(objects[m], families[m], bodies)
    {
      var f := families[i];
      assert f in families && IsNode(families, f.pair);
      forall r | r in f.runs ensures r in bodies { assert IsNode(families, r); }
      var o := FamilyOf(f, bodies);
      objects := objects + [o];
    }
  }

  lemma RunOf(objects: seq<Family>, families: seq<ReplayFamily>, bodies: map<string, Body>, i: nat, b: Body) returns (r: string)
    requires AllMatch(objects, families, bodies) && i < |families| && b in objects[i].runs
    ensures r in families[i].runs && r in bodies && bodies[r] == b
  {
    assert Matches(objects[i], families[i], bodies);
    var k :| 0 <= k < |objects[i].runs| && objects[i].runs[k] == b;
    r := families[i].runs[k];
  }

  /** Distinct ids make distinct bodies, so the families are as separate as the graph relates them. */
  lemma FamiliesAreSeparate(objects: seq<Family>, families: seq<ReplayFamily>, bodies: map<string, Body>, seeds: map<string, Point>, pinned: map<string, Point>)
    requires OneHome(families) && AllMatch(objects, families, bodies) && Embodied(bodies, seeds, pinned)
    ensures Separate(objects)
  {
    hide Matches, BodyOf;
    forall i, j, b | 0 <= i < |objects| && 0 <= j < |objects| && b in objects[j].runs ensures b != objects[i].pair {
      var r := RunOf(objects, families, bodies, j, b);
      PairBody(objects, families, bodies, i);
      assert families[i] in families && families[j] in families;
      SameId(bodies, seeds, pinned, r, families[i].pair);
    }
    forall i, j, b | 0 <= i < j < |objects| && b in objects[i].runs ensures b !in objects[j].runs {
      if b in objects[j].runs {
        var r := RunOf(objects, families, bodies, i, b);
        var q := RunOf(objects, families, bodies, j, b);
        SameId(bodies, seeds, pinned, r, q);
      }
    }
    forall i, j | 0 <= i < j < |objects| ensures objects[i].pair != objects[j].pair {
      PairBody(objects, families, bodies, i);
      PairBody(objects, families, bodies, j);
      SameId(bodies, seeds, pinned, families[i].pair, families[j].pair);
    }
    forall i, a, b | 0 <= i < |objects| && 0 <= a < b < |objects[i].runs| ensures objects[i].runs[a] != objects[i].runs[b] {
      assert families[i] in families;
      RunBody(objects, families, bodies, i, a);
      RunBody(objects, families, bodies, i, b);
      SameId(bodies, seeds, pinned, families[i].runs[a], families[i].runs[b]);
    }
  }

  lemma SameId(bodies: map<string, Body>, seeds: map<string, Point>, pinned: map<string, Point>, r: string, q: string)
    requires Embodied(bodies, seeds, pinned) && r in bodies && q in bodies && r != q
    ensures bodies[r] != bodies[q]
  {
    assert BodyOf(bodies[r], seeds, pinned, r) && BodyOf(bodies[q], seeds, pinned, q);
  }

  lemma PairBody(objects: seq<Family>, families: seq<ReplayFamily>, bodies: map<string, Body>, i: nat)
    requires AllMatch(objects, families, bodies) && i < |families|
    ensures families[i].pair in bodies && objects[i].pair == bodies[families[i].pair]
  {
    assert Matches(objects[i], families[i], bodies);
  }

  lemma RunBody(objects: seq<Family>, families: seq<ReplayFamily>, bodies: map<string, Body>, i: nat, k: nat)
    requires AllMatch(objects, families, bodies) && i < |families| && k < |objects[i].runs|
    ensures k < |families[i].runs| == |objects[i].runs| && families[i].runs[k] in bodies && objects[i].runs[k] == bodies[families[i].runs[k]]
  {
    assert Matches(objects[i], families[i], bodies);
  }

  // ----- in orbit from the first frame

  lemma {:induction false} NearestAtLeast(w: World, at: Point, others: seq<Point>, least: real)
    requires forall o :: o in others ==> Distance(w.hypot, at, o) >= least
    ensures NearestTo(w, at, others).Some? ==> NearestTo(w, at, others).value >= least
  {
    if others != [] {
      assert others == others[..|others| - 1] + [others[|others| - 1]];
      NearestAtLeast(w, at, others[..|others| - 1], least);
    }
  }

  lemma {:induction false} ElsewhereArePairs(objects: seq<Family>, pair: Body, o: Point) returns (g: Family)
    requires o in Elsewhere(objects, pair)
    ensures g in objects && g.pair != pair && o == g.pair.Spot()
  {
    var init, last := objects[..|objects| - 1], objects[|objects| - 1];
    assert objects == init + [last];
    if last.pair != pair && o == last.pair.Spot() { g := last; } else { g := ElsewhereArePairs(init, pair, o); }
  }

  /** Two extents and forty away from every other pair, a ring is inside its own limit. */
  lemma RingIsInOrbit(radius: real, extent: real, nearest: Option<real>)
    requires radius >= 0.0 && radius * ORBIT_LIMIT <= extent && (nearest.Some? ==> nearest.value >= extent * 2.0 + 40.0)
    ensures radius <= LimitFor(radius, nearest)
  {}

  ghost predicate WellSpaced(d: Drawing, objects: seq<Family>, spacing: real)
    reads PairsOf(objects)
  {
    forall i, j :: 0 <= i < |objects| && 0 <= j < |objects| && i != j ==> FarPairs(d, objects, i, j, spacing)
  }

  ghost predicate FarPairs(d: Drawing, objects: seq<Family>, i: int, j: int, spacing: real)
    requires 0 <= i < |objects| && 0 <= j < |objects|
    reads objects[i].pair, objects[j].pair
  {
    Distance(d.hypot, objects[i].pair.Spot(), objects[j].pair.Spot()) >= spacing
  }

  lemma LimitHoldsRing(d: Drawing, objects: seq<Family>, i: nat, extent: real)
    requires Faithful(d) && i < |objects| && WellSpaced(d, objects, extent * 2.0 + 40.0)
    requires FamilyRadius(|objects[i].runs|, d.pi) * ORBIT_LIMIT <= extent
    ensures FamilyRadius(|objects[i].runs|, d.pi) <= Limit(WorldOf(d), objects, objects[i])
  {
    hide FamilyRadius, IsHypot, IsSqrt, OnCircle, Distance, LimitFor, Elsewhere, WellSpaced;
    var w, pair := WorldOf(d), objects[i].pair;
    var others := Elsewhere(objects, pair);
    forall o | o in others ensures Distance(w.hypot, pair.Spot(), o) >= extent * 2.0 + 40.0 {
      var g := ElsewhereArePairs(objects, pair, o);
      var j :| 0 <= j < |objects| && objects[j] == g;
      FarOf(d, objects, i, j, extent * 2.0 + 40.0);
    }
    NearestAtLeast(w, pair.Spot(), others, extent * 2.0 + 40.0);
    RadiusIsWide(|objects[i].runs|, d.pi);
    RingIsInOrbit(FamilyRadius(|objects[i].runs|, d.pi), extent, NearestTo(w, pair.Spot(), others));
  }

  lemma FarOf(d: Drawing, objects: seq<Family>, i: int, j: int, spacing: real)
    requires WellSpaced(d, objects, spacing) && 0 <= i < |objects| && 0 <= j < |objects| && i != j
    ensures Distance(d.hypot, objects[i].pair.Spot(), objects[j].pair.Spot()) >= spacing
  {
    assert FarPairs(d, objects, i, j, spacing);
  }

  ghost predicate AtStart(bodies: map<string, Body>, seeds: map<string, Point>, pinned: map<string, Point>)
    reads bodies.Values
  {
    bodies.Keys == seeds.Keys && forall id :: id in bodies ==> bodies[id].Spot() == StartOf(seeds, pinned, id)
  }

  ghost predicate NoPinnedPair(families: seq<ReplayFamily>, pinned: map<string, Point>) {
    forall f :: f in families ==> f.pair !in pinned
  }

  /** A run that is not pinned starts on its pair's ring when the pair is not pinned either. */
  lemma StartsOnRing(d: Drawing, objects: seq<Family>, families: seq<ReplayFamily>, bodies: map<string, Body>,
                     seeds: map<string, Point>, pinned: map<string, Point>, i: nat, b: Body)
    requires Faithful(d) && AllMatch(objects, families, bodies) && i < |families| && b in objects[i].runs && !b.pinned
    requires Embodied(bodies, seeds, pinned) && AtStart(bodies, seeds, pinned)
    requires AllRinged(d, families, |families|, seeds) && families[i].pair !in pinned
    ensures Distance(d.hypot, objects[i].pair.Spot(), b.Spot()) == FamilyRadius(|objects[i].runs|, d.pi)
  {
    hide IsHypot, IsSqrt, OnCircle, Ring, Distance, FamilyRadius;
    var f := families[i];
    assert Matches(objects[i], f, bodies) && Ringed(d, f, seeds);
    var k :| 0 <= k < |objects[i].runs| && objects[i].runs[k] == b;
    assert BodyOf(bodies[f.runs[k]], seeds, pinned, f.runs[k]);
    PairBody(objects, families, bodies, i);
    RingIsAtRadius(d, seeds[f.pair], f, k);
  }

  lemma PairsWellSpaced(d: Drawing, objects: seq<Family>, families: seq<ReplayFamily>, bodies: map<string, Body>,
                        seeds: map<string, Point>, pinned: map<string, Point>, spacing: real)
    requires IsHypot(d.hypot) && spacing >= 0.0 && AllMatch(objects, families, bodies) && AtStart(bodies, seeds, pinned)
    requires NoPinnedPair(families, pinned) && Spaced(families, seeds, spacing)
    ensures WellSpaced(d, objects, spacing)
  {
    hide IsHypot, Distance, Apart, Matches;
    forall i, j | 0 <= i < |objects| && 0 <= j < |objects| && i != j ensures FarPairs(d, objects, i, j, spacing) {
      assert families[i] in families && families[j] in families;
      PairBody(objects, families, bodies, i);
      PairBody(objects, families, bodies, j);
      PairsFar(d, families, seeds, i, j, spacing);
    }
  }

  lemma PairsFar(d: Drawing, families: seq<ReplayFamily>, seeds: map<string, Point>, i: nat, j: nat, spacing: real)
    requires IsHypot(d.hypot) && spacing >= 0.0 && i < |families| && j < |families| && i != j && Spaced(families, seeds, spacing)
    ensures families[i].pair in seeds && families[j].pair in seeds
    ensures Distance(d.hypot, seeds[families[i].pair], seeds[families[j].pair]) >= spacing
  {
    hide IsHypot, Distance, Apart;
    if i < j { assert SpacedAt(seeds, families[i].pair, families[j].pair, spacing); } else { assert SpacedAt(seeds, families[j].pair, families[i].pair, spacing); }
    ApartBack(seeds[families[i].pair], seeds[families[j].pair], spacing);
    ApartIsFar(d.hypot, seeds[families[i].pair], seeds[families[j].pair], spacing);
  }

  lemma OrbitFits(d: Drawing, families: seq<ReplayFamily>, f: ReplayFamily)
    requires d.pi > 0.0 && f in families
    ensures 0.0 <= FamilyRadius(|f.runs|, d.pi) <= FamilyRadius(|f.runs|, d.pi) * ORBIT_LIMIT <= Extent(d, families)
  {
    hide FamilyRadius, Extent;
    ExtentIsWide(d, families);
    RadiusIsWide(|f.runs|, d.pi);
  }

  /** With no pair pinned, every run starts in orbit: before the first step as after any. */
  lemma StartsInOrbit(d: Drawing, objects: seq<Family>, families: seq<ReplayFamily>, bodies: map<string, Body>,
                      seeds: map<string, Point>, pinned: map<string, Point>)
    requires Faithful(d) && AllMatch(objects, families, bodies) && Embodied(bodies, seeds, pinned) && AtStart(bodies, seeds, pinned)
    requires NoPinnedPair(families, pinned) && AllRinged(d, families, |families|, seeds)
    requires Spaced(families, seeds, Extent(d, families) * 2.0 + 40.0)
    ensures AllInOrbit(WorldOf(d), objects, |objects|)
  {
    hide IsHypot, IsSqrt, OnCircle, Embodied, AtStart, AllRinged, Spaced, Extent, FamilyRadius, Distance, Limit, WellSpaced, Matches;
    var extent := Extent(d, families);
    ExtentIsWide(d, families);
    PairsWellSpaced(d, objects, families, bodies, seeds, pinned, extent * 2.0 + 40.0);
    forall i, b | 0 <= i < |objects| && b in objects[i].runs
      ensures Inside(WorldOf(d), objects[i].pair, b, Limit(WorldOf(d), objects, objects[i]))
    {
      if !b.pinned {
        assert families[i] in families;
        StartsOnRing(d, objects, families, bodies, seeds, pinned, i, b);
        SameCount(objects, families, bodies, i);
        OrbitFits(d, families, families[i]);
        LimitHoldsRing(d, objects, i, extent);
      }
    }
  }

  lemma SameCount(objects: seq<Family>, families: seq<ReplayFamily>, bodies: map<string, Body>, i: nat)
    requires AllMatch(objects, families, bodies) && i < |families|
    ensures |objects[i].runs| == |families[i].runs|
  {
    assert Matches(objects[i], families[i], bodies);
  }

  // ----- what a settled drawing promises

  ghost predicate Free(f: ReplayFamily, id: string, pinned: map<string, Point>) {
    f.pair !in pinned && id !in pinned
  }

  ghost predicate FreeRun(f: ReplayFamily, id: string, pinned: map<string, Point>) {
    id in f.runs && Free(f, id, pinned)
  }

  ghost predicate FreeNode(f: ReplayFamily, id: string, pinned: map<string, Point>) {
    (id == f.pair || id in f.runs) && Free(f, id, pinned)
  }

  /** Every run that is free stands within the extent of its own pair. */
  ghost predicate Reached(d: Drawing, f: ReplayFamily, at: map<string, Point>, pinned: map<string, Point>, extent: real) {
    f.pair in at && forall r :: r in f.runs ==> r in at && (Free(f, r, pinned) ==> Distance(d.hypot, at[f.pair], at[r]) <= extent)
  }

  ghost predicate AllReached(d: Drawing, families: seq<ReplayFamily>, at: map<string, Point>, pinned: map<string, Point>, extent: real) {
    forall f :: f in families ==> Reached(d, f, at, pinned, extent)
  }

  /** A pair stays at its seed unless it is pinned. */
  ghost predicate PairsStay(families: seq<ReplayFamily>, seeds: map<string, Point>, at: map<string, Point>, pinned: map<string, Point>) {
    forall f :: f in families && f.pair !in pinned ==> f.pair in seeds && f.pair in at && at[f.pair] == seeds[f.pair]
  }

  ghost predicate Settled(d: Drawing, families: seq<ReplayFamily>, ordinary: Option<Bounds>, pinned: map<string, Point>, seeds: map<string, Point>, at: map<string, Point>)
    requires d.pi > 0.0
  {
    && PairsStand(families, ordinary, seeds, Extent(d, families))
    && PairsStay(families, seeds, at, pinned)
    && AllReached(d, families, at, pinned, Extent(d, families))
  }

  ghost predicate FortyApart(d: Drawing, families: seq<ReplayFamily>, pinned: map<string, Point>, at: map<string, Point>) {
    forall i, j, a, b :: 0 <= i < |families| && 0 <= j < |families| && i != j && FreeRun(families[i], a, pinned) && FreeRun(families[j], b, pinned)
      ==> FortyFrom(d, at, a, b)
  }

  ghost predicate FortyFrom(d: Drawing, at: map<string, Point>, a: string, b: string) {
    a in at && b in at && Distance(d.hypot, at[a], at[b]) >= 40.0
  }

  /** Each unpinned run is strictly nearer its own pair than any pair standing elsewhere. */
  ghost predicate NearestOwn(d: Drawing, families: seq<ReplayFamily>, pinned: map<string, Point>, at: map<string, Point>) {
    forall i, j, r :: 0 <= i < |families| && 0 <= j < |families| && i != j && r in families[i].runs && r !in pinned
      ==> NearerThan(d, at, families[i].pair, families[j].pair, r)
  }

  ghost predicate NearerThan(d: Drawing, at: map<string, Point>, own: string, other: string, r: string) {
    own in at && other in at && r in at
    && (Distance(d.hypot, at[own], at[other]) > 0.0 ==> Distance(d.hypot, at[own], at[r]) < Distance(d.hypot, at[other], at[r]))
  }

  /** Everything free stands beside or below the ordinary drawing, a gap away. */
  ghost predicate ClearOfOrdinary(families: seq<ReplayFamily>, ordinary: Option<Bounds>, pinned: map<string, Point>, at: map<string, Point>) {
    forall f, id :: f in families && FreeNode(f, id, pinned) ==> id in at && Beyond(ordinary, at[id], 0.0)
  }

  /** Regions stand side by side in key order, a gap between them. */
  ghost predicate RegionsClear(families: seq<ReplayFamily>, pinned: map<string, Point>, at: map<string, Point>) {
    forall f, g, a, b :: f in families && g in families && Less(f.region, g.region) && FreeNode(f, a, pinned) && FreeNode(g, b, pinned)
      ==> ClearIn(at, a, b, REGION_GAP)
  }

  lemma LegsAreShort(hypot: (real, real) -> real, a: Point, b: Point, most: real)
    requires IsHypot(hypot) && Distance(hypot, a, b) <= most
    ensures a.x - most <= b.x <= a.x + most && a.y - most <= b.y <= a.y + most
  {
    var x, y, r := b.x - a.x, b.y - a.y, hypot(b.x - a.x, b.y - a.y);
    SquareIsPositive(x);
    SquareIsPositive(y);
    assert (-x) * (-x) == x * x && (-y) * (-y) == y * y;
    SmallerRoot(x, r);
    SmallerRoot(-x, r);
    SmallerRoot(y, r);
    SmallerRoot(-y, r);
  }

  /** A free node of a family is within the extent of its pair's seed. */
  lemma NodeNear(d: Drawing, families: seq<ReplayFamily>, ordinary: Option<Bounds>, pinned: map<string, Point>,
                 seeds: map<string, Point>, at: map<string, Point>, f: ReplayFamily, id: string)
    requires Faithful(d) && Settled(d, families, ordinary, pinned, seeds, at)
    requires f in families && FreeNode(f, id, pinned)
    ensures f.pair in seeds && id in at
    ensures var c, e := seeds[f.pair], Extent(d, families); c.x - e <= at[id].x <= c.x + e && c.y - e <= at[id].y <= c.y + e
    ensures id in f.runs ==> Distance(d.hypot, seeds[f.pair], at[id]) <= Extent(d, families)
  {
    hide IsHypot, IsSqrt, OnCircle, Distance, Extent, PairsStand;
    assert Reached(d, f, at, pinned, Extent(d, families));
    ExtentIsWide(d, families);
    if id in f.runs { LegsAreShort(d.hypot, seeds[f.pair], at[id], Extent(d, families)); }
  }

  /** Runs of different pairs stay at least forty apart. */
  lemma RunsStayForty(d: Drawing, families: seq<ReplayFamily>, ordinary: Option<Bounds>, pinned: map<string, Point>,
                      seeds: map<string, Point>, at: map<string, Point>)
    requires Faithful(d) && Settled(d, families, ordinary, pinned, seeds, at)
    ensures FortyApart(d, families, pinned, at)
  {
    hide IsHypot, IsSqrt, OnCircle, Distance, Extent, Reached, Spaced, Free, SideBySide, StandBeyond, PairsStay, AllReached;
    var e := Extent(d, families);
    ExtentIsWide(d, families);
    forall i, j, a, b | 0 <= i < |families| && 0 <= j < |families| && i != j && FreeRun(families[i], a, pinned) && FreeRun(families[j], b, pinned)
      ensures FortyFrom(d, at, a, b)
    {
      assert families[i] in families && families[j] in families;
      NodeNear(d, families, ordinary, pinned, seeds, at, families[i], a);
      NodeNear(d, families, ordinary, pinned, seeds, at, families[j], b);
      PairsFar(d, families, seeds, i, j, e * 2.0 + 40.0);
      OrbitsStayApart(d.hypot, at[a], seeds[families[i].pair], at[b], seeds[families[j].pair], e, e);
    }
  }

  lemma StaysBeyond(d: Drawing, families: seq<ReplayFamily>, ordinary: Option<Bounds>, pinned: map<string, Point>,
                    seeds: map<string, Point>, at: map<string, Point>)
    requires Faithful(d) && Settled(d, families, ordinary, pinned, seeds, at)
    ensures ClearOfOrdinary(families, ordinary, pinned, at)
  {
    hide IsHypot, IsSqrt, OnCircle, Distance, Extent, Reached, Spaced, Free, SideBySide, PairsStay, AllReached;
    forall f, id | f in families && FreeNode(f, id, pinned) ensures id in at && Beyond(ordinary, at[id], 0.0) {
      NodeNear(d, families, ordinary, pinned, seeds, at, f, id);
      assert Beyond(ordinary, seeds[f.pair], Extent(d, families));
    }
  }

  lemma RegionsStayClear(d: Drawing, families: seq<ReplayFamily>, ordinary: Option<Bounds>, pinned: map<string, Point>,
                         seeds: map<string, Point>, at: map<string, Point>)
    requires Faithful(d) && Settled(d, families, ordinary, pinned, seeds, at)
    ensures RegionsClear(families, pinned, at)
  {
    hide IsHypot, IsSqrt, OnCircle, Distance, Extent, Reached, Spaced, Free, StandBeyond, PairsStay, AllReached, Less;
    var e := Extent(d, families);
    forall f, g, a, b | f in families && g in families && Less(f.region, g.region) && FreeNode(f, a, pinned) && FreeNode(g, b, pinned)
      ensures ClearIn(at, a, b, REGION_GAP)
    {
      NodeNear(d, families, ordinary, pinned, seeds, at, f, a);
      NodeNear(d, families, ordinary, pinned, seeds, at, g, b);
      assert ClearIn(seeds, f.pair, g.pair, e * 2.0 + REGION_GAP);
    }
  }

  /** A deck whose runs replay two pairs is one dot circling both, and no drawing keeps it apart from itself. */
  lemma SharedRunIsNeverApart(d: Drawing, families: seq<ReplayFamily>, pinned: map<string, Point>, at: map<string, Point>, i: nat, j: nat, r: string)
    requires IsHypot(d.hypot) && i < |families| && j < |families| && i != j
    requires FreeRun(families[i], r, pinned) && FreeRun(families[j], r, pinned)
    ensures !FortyApart(d, families, pinned, at)
  {
    NeverFromItself(d, at, r);
  }

  lemma NeverFromItself(d: Drawing, at: map<string, Point>, r: string)
    requires IsHypot(d.hypot)
    ensures !FortyFrom(d, at, r, r)
  {
    HypotIs(d.hypot, 0.0, 0.0, 0.0);
  }

  // ----- from the settled bodies to the drawing

  /** Where the bodies ended: in orbit, or still where they started. */
  lemma BodyReached(d: Drawing, objects: seq<Family>, families: seq<ReplayFamily>, bodies: map<string, Body>,
                    seeds: map<string, Point>, pinned: map<string, Point>, i: nat, b: Body)
    requires Faithful(d) && AllMatch(objects, families, bodies) && i < |families| && b in objects[i].runs && !b.pinned
    requires Embodied(bodies, seeds, pinned) && AllRinged(d, families, |families|, seeds) && families[i].pair !in pinned
    requires AllInOrbit(WorldOf(d), objects, |objects|) || AtStart(bodies, seeds, pinned)
    ensures Distance(d.hypot, objects[i].pair.Spot(), b.Spot()) <= Extent(d, families)
  {
    hide IsHypot, IsSqrt, OnCircle, Distance, Extent, FamilyRadius, Limit, Embodied, AtStart, AllRinged, Matches;
    assert families[i] in families;
    OrbitFits(d, families, families[i]);
    SameCount(objects, families, bodies, i);
    if AllInOrbit(WorldOf(d), objects, |objects|) {
      assert Inside(WorldOf(d), objects[i].pair, b, Limit(WorldOf(d), objects, objects[i]));
      LimitInside(d, objects, objects[i]);
    } else {
      StartsOnRing(d, objects, families, bodies, seeds, pinned, i, b);
    }
  }

  lemma LimitInside(d: Drawing, objects: seq<Family>, o: Family)
    requires Faithful(d)
    ensures Limit(WorldOf(d), objects, o) <= FamilyRadius(|o.runs|, d.pi) * ORBIT_LIMIT
  {
    hide IsSqrt, OnCircle;
    LimitIsSafe(WorldOf(d), objects, o);
  }

  ghost predicate ReadOff(bodies: map<string, Body>, at: map<string, Point>)
    reads bodies.Values
  {
    bodies.Keys == at.Keys && forall id :: id in bodies ==> at[id] == bodies[id].Spot()
  }

  lemma DrawingReached(d: Drawing, objects: seq<Family>, families: seq<ReplayFamily>, bodies: map<string, Body>,
                       seeds: map<string, Point>, pinned: map<string, Point>, at: map<string, Point>)
    requires Faithful(d) && AllMatch(objects, families, bodies)
    requires Embodied(bodies, seeds, pinned) && AllRinged(d, families, |families|, seeds) && ReadOff(bodies, at)
    requires AllInOrbit(WorldOf(d), objects, |objects|) || AtStart(bodies, seeds, pinned)
    ensures AllReached(d, families, at, pinned, Extent(d, families))
  {
    hide IsHypot, IsSqrt, OnCircle, Distance, Extent, AtStart, AllRinged, AllInOrbit, BodyOf;
    forall f, r | f in families && r in f.runs
      ensures f.pair in at && r in at && (Free(f, r, pinned) ==> Distance(d.hypot, at[f.pair], at[r]) <= Extent(d, families))
    {
      var i :| 0 <= i < |families| && families[i] == f;
      var k :| 0 <= k < |f.runs| && f.runs[k] == r;
      assert Matches(objects[i], f, bodies);
      assert objects[i].runs[k] in objects[i].runs;
      if Free(f, r, pinned) {
        Unpinned(bodies, seeds, pinned, r);
        BodyReached(d, objects, families, bodies, seeds, pinned, i, objects[i].runs[k]);
      }
    }
    forall f | f in families ensures f.pair in at {
      var i :| 0 <= i < |families| && families[i] == f;
      PairBody(objects, families, bodies, i);
    }
  }

  lemma Unpinned(bodies: map<string, Body>, seeds: map<string, Point>, pinned: map<string, Point>, r: string)
    requires Embodied(bodies, seeds, pinned) && r in bodies
    ensures bodies[r].pinned == (r in pinned)
  {
    assert BodyOf(bodies[r], seeds, pinned, r);
  }

  lemma DrawingNearest(d: Drawing, objects: seq<Family>, families: seq<ReplayFamily>, bodies: map<string, Body>,
                       seeds: map<string, Point>, pinned: map<string, Point>, at: map<string, Point>)
    requires Faithful(d) && AllMatch(objects, families, bodies) && Embodied(bodies, seeds, pinned) && ReadOff(bodies, at)
    requires Separate(objects) && AllInOrbit(WorldOf(d), objects, |objects|)
    ensures NearestOwn(d, families, pinned, at)
  {
    hide IsHypot, IsSqrt, OnCircle, Distance, AllInOrbit, BodyOf, Separate;
    forall i, j, r | 0 <= i < |families| && 0 <= j < |families| && i != j && r in families[i].runs && r !in pinned
      ensures NearerThan(d, at, families[i].pair, families[j].pair, r)
    {
      var k :| 0 <= k < |families[i].runs| && families[i].runs[k] == r;
      assert Matches(objects[i], families[i], bodies) && Matches(objects[j], families[j], bodies);
      assert objects[i].runs[k] in objects[i].runs;
      Unpinned(bodies, seeds, pinned, r);
      if Distance(d.hypot, at[families[i].pair], at[families[j].pair]) > 0.0 {
        WorldIsPhysical(d);
        OrbitIsNearest(WorldOf(d), objects, i, j, objects[i].runs[k]);
      }
    }
  }

  lemma StillAtStart(bodies: map<string, Body>, seeds: map<string, Point>, pinned: map<string, Point>)
    requires bodies.Keys == seeds.Keys && forall id :: id in bodies ==> bodies[id].Spot() == StartOf(seeds, pinned, id)
    ensures AtStart(bodies, seeds, pinned)
  {}

  lemma PairBodies(objects: seq<Family>, families: seq<ReplayFamily>, bodies: map<string, Body>)
    requires AllMatch(objects, families, bodies)
    ensures forall f :: f in families ==> f.pair in bodies && bodies[f.pair] in PairsOf(objects)
  {
    forall f | f in families ensures f.pair in bodies && bodies[f.pair] in PairsOf(objects) {
      var i :| 0 <= i < |families| && families[i] == f;
      PairBody(objects, families, bodies, i);
      assert objects[i] in objects;
    }
  }

  lemma PairsDoNotRun(objects: seq<Family>)
    requires Separate(objects)
    ensures PairsOf(objects) !! RunsOf(objects)
  {}

  lemma RunsAreBodies(objects: seq<Family>, families: seq<ReplayFamily>, bodies: map<string, Body>)
    requires AllMatch(objects, families, bodies)
    ensures RunsOf(objects) <= bodies.Values
  {
    hide Matches;
    forall b | b in RunsOf(objects) ensures b in bodies.Values {
      var f :| f in objects && b in f.runs;
      var i :| 0 <= i < |objects| && objects[i] == f;
      var r := RunOf(objects, families, bodies, i, b);
    }
  }

  /**
   * The replay half of layoutGraph, after any number of steps: pins are kept, and of what is free, runs of different
   * pairs are forty apart, regions are clear of each other and of the ordinary drawing, and every run is nearest its own pair.
   */
  method LayoutReplays(d: Drawing, families: seq<ReplayFamily>, ordinary: Option<Bounds>, pinned: map<string, Point>, steps: nat)
    returns (positions: map<string, Point>)
    requires Faithful(d) && OneHome(families)
    ensures forall id :: id in positions <==> IsNode(families, id)
    ensures forall id :: id in positions && id in pinned ==> positions[id] == pinned[id]
    ensures FortyApart(d, families, pinned, positions)
    ensures ClearOfOrdinary(families, ordinary, pinned, positions)
    ensures RegionsClear(families, pinned, positions)
    ensures steps > 0 || NoPinnedPair(families, pinned) ==> NearestOwn(d, families, pinned, positions)
  {
    hide Faithful, OneHome, Separate, IsNode, AllInOrbit, AllRinged, PairsStand, AllMatch, BodyOf, WorldOf, Extent, PairsOf, RunsOf, NoPinnedPair,
      FortyApart, ClearOfOrdinary, RegionsClear, NearestOwn, AllReached, Physical;
    DrawingIsPhysical(d);
    var seeds := SeedReplays(d, families, ordinary);
    var bodies := BodiesFrom(seeds, pinned);
    var objects := FamiliesOf(families, bodies);
    FamiliesAreSeparate(objects, families, bodies, seeds, pinned);
    StillAtStart(bodies, seeds, pinned);
    if NoPinnedPair(families, pinned) {
      SeedsAreSpaced(d, families, ordinary, seeds);
      StartsInOrbit(d, objects, families, bodies, seeds, pinned);
    }
    PairBodies(objects, families, bodies);
    PairsDoNotRun(objects);
    RunsAreBodies(objects, families, bodies);
    label placed:
    SettleReplays(WorldOf(d), objects, steps);
    forall id | id in bodies && (id in pinned || steps == 0 || bodies[id] in PairsOf(objects))
      ensures bodies[id].Spot() == StartOf(seeds, pinned, id)
    {
      Unpinned(bodies, seeds, pinned, id);
      assert bodies[id].State() == old@placed(bodies[id].State());
      assert old@placed(bodies[id].Spot()) == StartOf(seeds, pinned, id);
    }
    positions := map id | id in bodies :: Point(bodies[id].x, bodies[id].y);
    if steps == 0 { StillAtStart(bodies, seeds, pinned); }
    DrawingReached(d, objects, families, bodies, seeds, pinned, positions);
    StandsSettled(d, families, ordinary, pinned, seeds, positions);
    RunsStayForty(d, families, ordinary, pinned, seeds, positions);
    StaysBeyond(d, families, ordinary, pinned, seeds, positions);
    RegionsStayClear(d, families, ordinary, pinned, seeds, positions);
    if steps > 0 || NoPinnedPair(families, pinned) {
      DrawingNearest(d, objects, families, bodies, seeds, pinned, positions);
    }
  }

  lemma DrawingIsPhysical(d: Drawing)
    requires Faithful(d)
    ensures Physical(WorldOf(d)) && d.pi > 0.0
  {}

  lemma SeedsAreSpaced(d: Drawing, families: seq<ReplayFamily>, ordinary: Option<Bounds>, seeds: map<string, Point>)
    requires d.pi > 0.0 && PairsStand(families, ordinary, seeds, Extent(d, families))
    ensures Spaced(families, seeds, Extent(d, families) * 2.0 + 40.0)
  {}

  lemma StandsSettled(d: Drawing, families: seq<ReplayFamily>, ordinary: Option<Bounds>, pinned: map<string, Point>,
                      seeds: map<string, Point>, at: map<string, Point>)
    requires d.pi > 0.0 && PairsStand(families, ordinary, seeds, Extent(d, families))
    requires PairsStay(families, seeds, at, pinned) && AllReached(d, families, at, pinned, Extent(d, families))
    ensures Settled(d, families, ordinary, pinned, seeds, at)
  {}
}
