/** Where replay families start: beside or below the ordinary drawing, each pair's runs in a ring around it. */
module ReplaySeeds {
  import opened Text
  import opened Reals
  import opened ReplayOrbits
  import opened ReplaySlots
  import opened Order

  /** One pair as the graph relates it: its region, whether it has a hub, and the runs that circle it. */
  datatype ReplayFamily = ReplayFamily(region: string, hub: Option<string>, pair: string, runs: seq<string>)

  datatype Bounds = Bounds(minX: real, minY: real, maxX: real, maxY: real)

  /** What the drawing computes with; `turn` is a node's own share of a full turn, from its hashed id. */
  datatype Drawing = Drawing(hypot: (real, real) -> real, sqrt: real -> real, cos: real -> real, sin: real -> real, pi: real, turn: string -> real)

  ghost predicate OnCircle(cos: real -> real, sin: real -> real) {
    forall t :: cos(t) * cos(t) + sin(t) * sin(t) == 1.0
  }

  ghost predicate Faithful(d: Drawing) {
    IsHypot(d.hypot) && IsSqrt(d.sqrt) && OnCircle(d.cos, d.sin) && d.pi > 0.0
  }

  // ----- the runs of a pair, in a ring

  function Angle(d: Drawing, f: ReplayFamily, k: nat): real
    requires k < |f.runs|
  {
    k as real * d.pi * 2.0 / |f.runs| as real + d.turn(f.pair) * d.pi * 2.0
  }

  function Ring(d: Drawing, centre: Point, f: ReplayFamily, k: nat): Point
    requires d.pi > 0.0 && k < |f.runs|
  {
    Round(centre, d.cos(Angle(d, f, k)), d.sin(Angle(d, f, k)), FamilyRadius(|f.runs|, d.pi))
  }

  function Round(centre: Point, u: real, v: real, radius: real): Point {
    Point(centre.x + u * radius, centre.y + v * radius)
  }

  lemma RoundIsAtRadius(hypot: (real, real) -> real, centre: Point, u: real, v: real, radius: real)
    requires IsHypot(hypot) && radius >= 0.0 && u * u + v * v == 1.0
    ensures Distance(hypot, centre, Round(centre, u, v, radius)) == radius
  {
    ScaledSquares(u, v, radius);
    HypotIs(hypot, u * radius, v * radius, radius);
  }

  lemma RingIsAtRadius(d: Drawing, centre: Point, f: ReplayFamily, k: nat)
    requires Faithful(d) && k < |f.runs|
    ensures Distance(d.hypot, centre, Ring(d, centre, f, k)) == FamilyRadius(|f.runs|, d.pi)
  {
    hide *;
    FaithfulTurns(d, Angle(d, f, k));
    RadiusIsWide(|f.runs|, d.pi);
    RoundIsAtRadius(d.hypot, centre, d.cos(Angle(d, f, k)), d.sin(Angle(d, f, k)), FamilyRadius(|f.runs|, d.pi));
    RingIsRound(d, centre, f, k);
  }

  lemma RingIsRound(d: Drawing, centre: Point, f: ReplayFamily, k: nat)
    requires d.pi > 0.0 && k < |f.runs|
    ensures Ring(d, centre, f, k) == Round(centre, d.cos(Angle(d, f, k)), d.sin(Angle(d, f, k)), FamilyRadius(|f.runs|, d.pi))
  {}

  /** The runs of a pair start evenly spaced around it: one more step of a full circle each, from the pair's own turn. */
  lemma RingIsEven(d: Drawing, f: ReplayFamily, k: nat)
    requires d.pi > 0.0 && k < |f.runs|
    ensures Angle(d, f, 0) == 2.0 * d.pi * d.turn(f.pair)
    ensures k + 1 < |f.runs| ==> (Angle(d, f, k + 1) - Angle(d, f, k)) * |f.runs| as real == 2.0 * d.pi
    ensures (Angle(d, f, 0) + 2.0 * d.pi - Angle(d, f, |f.runs| - 1)) * |f.runs| as real == 2.0 * d.pi
  {
    var n := |f.runs| as real;
    StepOf(n, 0.0, d.pi);
    StepOf(n, k as real, d.pi);
    StepOf(n, (k + 1) as real, d.pi);
    StepOf(n, n - 1.0, d.pi);
    assert (|f.runs| - 1) as real == n - 1.0;
    var a, b, c, turn := k as real * d.pi * 2.0 / n, (k + 1) as real * d.pi * 2.0 / n, (n - 1.0) * d.pi * 2.0 / n, d.turn(f.pair) * d.pi * 2.0;
    Minus(b, turn, a, n);
    Minus(2.0 * d.pi, turn, c, n);
  }

  lemma StepOf(n: real, k: real, pi: real)
    requires n > 0.0
    ensures k * pi * 2.0 / n * n == k * pi * 2.0
    ensures k == 0.0 ==> k * pi * 2.0 / n == 0.0
  {
    Times(k * pi * 2.0, n);
    if k == 0.0 { Divided(k * pi * 2.0, 0.0, n); }
  }

  lemma Minus(b: real, turn: real, a: real, n: real)
    ensures ((b + turn) - (a + turn)) * n == b * n - a * n
  {}

  lemma FaithfulTurns(d: Drawing, t: real)
    requires Faithful(d)
    ensures IsHypot(d.hypot) && d.pi > 0.0 && d.cos(t) * d.cos(t) + d.sin(t) * d.sin(t) == 1.0
  {}

  lemma RadiusIsWide(count: nat, pi: real)
    requires pi > 0.0
    ensures FamilyRadius(count, pi) >= 90.0
  {}

  // ----- the extent every orbit fits in

  function WidestRadius(families: seq<ReplayFamily>, pi: real): (r: real)
    requires pi > 0.0
    ensures forall f :: f in families ==> FamilyRadius(|f.runs|, pi) <= r
    ensures families != [] ==> exists f :: f in families && FamilyRadius(|f.runs|, pi) == r
  {
    if families == [] then 0.0 else Max(FamilyRadius(|families[0].runs|, pi), WidestRadius(families[1..], pi))
  }

  function Extent(d: Drawing, families: seq<ReplayFamily>): real
    requires d.pi > 0.0
  {
    WidestRadius(families, d.pi) * ORBIT_LIMIT
  }

  // ----- how many columns a region gets

  function Ceiling(x: real): int {
    -((-x).Floor)
  }

  /** As many columns as fit, at least the square root, never more than there are pairs. */
  function Columns(sqrt: real -> real, pairs: nat, fit: int): int {
    var square := Ceiling(sqrt(pairs as real));
    var wide := if fit > square then fit else square;
    if wide < pairs then wide else pairs
  }

  /** A region has at least one column, none without a pair, and never more rows than columns. */
  lemma ColumnsAreWide(sqrt: real -> real, pairs: nat, fit: int)
    requires IsSqrt(sqrt) && pairs > 0
    ensures 1 <= Columns(sqrt, pairs, fit) <= pairs && pairs <= Columns(sqrt, pairs, fit) * Columns(sqrt, pairs, fit)
  {
    var root := sqrt(pairs as real);
    SqrtIs(sqrt, pairs as real);
    var square := Ceiling(root);
    assert square as real >= root;
    SquaresOver(square, root, pairs);
    var c := Columns(sqrt, pairs, fit);
    if c < pairs { Squared(c, square); }
  }

  lemma SquaresOver(square: int, root: real, pairs: nat)
    requires pairs > 0 && root >= 0.0 && root * root == pairs as real && square as real >= root
    ensures square >= 1 && square * square >= pairs
  {
    SquaresGrow(square as real, root);
    assert (square * square) as real == square as real * square as real;
  }

  lemma Squared(c: int, square: int)
    requires c >= square >= 0
    ensures c * c >= square * square
  {}

  // ----- the regions of a drawing

  function FamiliesIn(families: seq<ReplayFamily>, key: string): seq<ReplayFamily> {
    if families == [] then []
    else (if families[0].region == key then [families[0]] else []) + FamiliesIn(families[1..], key)
  }

  function Named(families: seq<ReplayFamily>): (pairs: seq<string>)
    ensures |pairs| == |families| && forall i :: 0 <= i < |families| ==> pairs[i] == families[i].pair
  {
    if families == [] then [] else [families[0].pair] + Named(families[1..])
  }

  /** No two families share a pair, no run circles two pairs, and no pair is a run. */
  ghost predicate OneHome(families: seq<ReplayFamily>) {
    && OwnPairs(families)
    && (forall i, j, r :: 0 <= i < j < |families| && r in families[i].runs ==> r !in families[j].runs)
    && (forall f, g :: f in families && g in families ==> f.pair !in g.runs)
    && (forall f :: f in families ==> Distinct(f.runs))
  }

  ghost predicate OwnPairs(families: seq<ReplayFamily>) {
    forall i, j :: 0 <= i < j < |families| ==> families[i].pair != families[j].pair
  }

  lemma {:induction false} FamiliesInAre(families: seq<ReplayFamily>, key: string)
    ensures forall f :: f in FamiliesIn(families, key) <==> f in families && f.region == key
  {
    if families != [] {
      FamiliesInAre(families[1..], key);
      assert families == [families[0]] + families[1..];
    }
  }

  lemma {:induction false} OwnPairsIn(families: seq<ReplayFamily>, key: string)
    requires OwnPairs(families)
    ensures OwnPairs(FamiliesIn(families, key))
  {
    if families != [] {
      var rest := FamiliesIn(families[1..], key);
      OwnPairsIn(families[1..], key);
      FamiliesInAre(families[1..], key);
      forall j | 0 <= j < |rest| ensures rest[j].pair != families[0].pair {
        assert rest[j] in rest && rest[j] in families[1..];
      }
    }
  }

  ghost predicate RegionFor(region: Region, families: seq<ReplayFamily>, key: string, extent: real) {
    region.pairs == Named(FamiliesIn(families, key)) && region.columns > 0 && region.minY <= -extent
  }

  /** One region: its pairs in order, its columns, and how far above its first row it reaches. */
  method RegionOf(d: Drawing, families: seq<ReplayFamily>, key: string, extent: real, spacing: real, fit: int) returns (region: Region)
    requires IsSqrt(d.sqrt) && exists f :: f in families && f.region == key
    ensures RegionFor(region, families, key, extent)
  {
    hide Columns;
    FamiliesInAre(families, key);
    var members := FamiliesIn(families, key);
    ColumnsAreWide(d.sqrt, |members|, fit);
    var reach := if members[0].hub.None? then 0.0 else -spacing * 0.65;
    region := Region(Named(members), Columns(d.sqrt, |members|, fit), Min(-extent, reach));
  }

  ghost predicate RegionsFor(regions: seq<Region>, families: seq<ReplayFamily>, keys: seq<string>, extent: real, n: nat)
    requires n <= |keys|
  {
    |regions| == n && forall i :: 0 <= i < n ==> RegionFor(regions[i], families, keys[i], extent)
  }

  method AllRegions(d: Drawing, families: seq<ReplayFamily>, keys: seq<string>, extent: real, fit: int) returns (regions: seq<Region>)
    requires IsSqrt(d.sqrt) && forall key :: key in keys ==> exists f :: f in families && f.region == key
    ensures RegionsFor(regions, families, keys, extent, |keys|)
  {
    hide RegionFor;
    regions := [];
    for i := 0 to |keys|
      invariant RegionsFor(regions, families, keys, extent, i)
    {
      assert keys[i] in keys;
      var region := RegionOf(d, families, keys[i], extent, extent * 2.0 + 40.0, fit);
      regions := regions + [region];
    }
  }

  lemma PairOfRegion(regions: seq<Region>, families: seq<ReplayFamily>, keys: seq<string>, extent: real, i: nat, p: string)
    requires i < |keys| && RegionsFor(regions, families, keys, extent, |keys|)
    ensures p in regions[i].pairs <==> exists f :: f in families && f.region == keys[i] && f.pair == p
  {
    hide FamiliesIn;
    FamiliesInAre(families, keys[i]);
    var members := FamiliesIn(families, keys[i]);
    assert RegionFor(regions[i], families, keys[i], extent);
    if f :| f in families && f.region == keys[i] && f.pair == p {
      var k :| 0 <= k < |members| && members[k] == f;
      assert regions[i].pairs[k] == p;
    }
    if p in regions[i].pairs {
      var k :| 0 <= k < |members| && regions[i].pairs[k] == p;
      assert members[k] in members;
    }
  }

  lemma SamePairSameFamily(families: seq<ReplayFamily>, f: ReplayFamily, g: ReplayFamily)
    requires OwnPairs(families) && f in families && g in families && f.pair == g.pair
    ensures f == g
  {}

  lemma RegionsAreFresh(regions: seq<Region>, families: seq<ReplayFamily>, keys: seq<string>, extent: real)
    requires OwnPairs(families) && RegionsFor(regions, families, keys, extent, |keys|) && Distinct(keys)
    ensures FreshPairs(regions)
  {
    hide OwnPairs, FamiliesIn;
    forall i | 0 <= i < |regions| ensures RegionFor(regions[i], families, keys[i], extent) && OwnPairs(FamiliesIn(families, keys[i])) {
      OwnPairsIn(families, keys[i]);
    }
    forall i, a, b | 0 <= i < |regions| && 0 <= a < b < |regions[i].pairs| ensures regions[i].pairs[a] != regions[i].pairs[b] {
      PairsDiffer(FamiliesIn(families, keys[i]), a, b);
    }
    forall i, j, p | 0 <= i < j < |regions| && p in regions[i].pairs ensures p !in regions[j].pairs {
      PairOfRegion(regions, families, keys, extent, i, p);
      if p in regions[j].pairs {
        PairOfRegion(regions, families, keys, extent, j, p);
        var f :| f in families && f.region == keys[i] && f.pair == p;
        var g :| g in families && g.region == keys[j] && g.pair == p;
        SamePairSameFamily(families, f, g);
      }
    }
  }

  lemma PairsDiffer(members: seq<ReplayFamily>, a: nat, b: nat)
    requires OwnPairs(members) && a < b < |members|
    ensures Named(members)[a] != Named(members)[b]
  {}

  // ----- beside or below the ordinary drawing

  predicate Below(o: Bounds) {
    o.maxX - o.minX >= o.maxY - o.minY
  }

  /** Below a wide ordinary drawing, right of a tall one, by the gap and this much more. */
  ghost predicate Beyond(ordinary: Option<Bounds>, at: Point, room: real) {
    ordinary.Some? ==>
      var o := ordinary.value;
      if o.maxX - o.minX >= o.maxY - o.minY then at.y >= o.maxY + 120.0 + room else at.x >= o.maxX + 120.0 + room
  }

  /** How many columns fit next to each other in the ordinary drawing's width, for each region. */
  function Fit(ordinary: Option<Bounds>, regions: nat, extent: real): int
    requires regions > 0 && extent >= 0.0
  {
    if ordinary.None? || !Below(ordinary.value) then 0
    else
      var available := (ordinary.value.maxX - ordinary.value.minX - REGION_GAP * (regions - 1) as real) / regions as real;
      ((available - extent * 2.0) / (extent * 2.0 + 40.0)).Floor + 1
  }

  /** The most columns that fit: so many take at most the width each region has of the ordinary drawing's, one more takes more. */
  lemma FitIsMost(ordinary: Option<Bounds>, regions: nat, extent: real) returns (own: real)
    requires regions > 0 && extent >= 0.0 && ordinary.Some?
    requires ordinary.value.maxX - ordinary.value.minX >= ordinary.value.maxY - ordinary.value.minY
    ensures own * regions as real + 120.0 * (regions - 1) as real == ordinary.value.maxX - ordinary.value.minX
    ensures var fit := Fit(ordinary, regions, extent);
      (fit - 1) as real * (2.0 * extent + 40.0) + 2.0 * extent <= own < fit as real * (2.0 * extent + 40.0) + 2.0 * extent
  {
    var width, n := ordinary.value.maxX - ordinary.value.minX, regions as real;
    own := (width - REGION_GAP * (regions - 1) as real) / n;
    Times(width - REGION_GAP * (regions - 1) as real, n);
    var room, spacing := own - extent * 2.0, extent * 2.0 + 40.0;
    Times(room, spacing);
    FloorTimes(room / spacing, spacing);
    FitNumber(ordinary, regions, extent, own);
    var m, fit := (room / spacing).Floor, Fit(ordinary, regions, extent);
    assert room == room / spacing * spacing && room < (m + 1) as real * spacing;
    assert 2.0 * extent + 40.0 == spacing && fit as real * spacing == (m + 1) as real * spacing && (fit - 1) as real * spacing == m as real * spacing;
  }

  lemma FitNumber(ordinary: Option<Bounds>, regions: nat, extent: real, own: real)
    requires regions > 0 && extent >= 0.0 && ordinary.Some? && Below(ordinary.value)
    requires own == (ordinary.value.maxX - ordinary.value.minX - REGION_GAP * (regions - 1) as real) / regions as real
    ensures var m := ((own - extent * 2.0) / (extent * 2.0 + 40.0)).Floor;
      (Fit(ordinary, regions, extent) - 1) as real == m as real && Fit(ordinary, regions, extent) as real == (m + 1) as real
  {}

  lemma Times(a: real, b: real)
    requires b > 0.0
    ensures a / b * b == a
  {}

  lemma FloorTimes(q: real, d: real)
    requires d > 0.0
    ensures q.Floor as real * d <= q * d && q * d < (q.Floor + 1) as real * d
  {
    var m := q.Floor as real;
    ProductIsPositive(q - m, d);
    StrictProduct(m + 1.0 - q, d);
    assert (q - m) * d == q * d - m * d && (m + 1.0 - q) * d == (m + 1.0) * d - q * d;
    assert (q.Floor + 1) as real == m + 1.0;
  }

  /** How wide all regions are together, and how tall the tallest is. */
  method SizeOf(regions: seq<Region>, extent: real) returns (width: real, height: real)
    requires forall r :: r in regions ==> r.columns > 0
  {
    var spacing := extent * 2.0 + 40.0;
    width, height := REGION_GAP * (|regions| - 1) as real, 0.0;
    for i := 0 to |regions| {
      var r := regions[i];
      assert r in regions;
      var rows := (|r.pairs| + r.columns - 1) / r.columns;
      width := width + (r.columns - 1) as real * spacing + extent * 2.0;
      var tall := (rows - 1) as real * spacing + extent - r.minY;
      height := if i == 0 then tall else Max(height, tall);
    }
  }

  /** Where the first region's left edge and the regions' common top edge are. */
  method StandAt(ordinary: Option<Bounds>, width: real, height: real) returns (left: real, top: real)
    ensures ordinary.Some? ==> if Below(ordinary.value) then top == ordinary.value.maxY + REGION_GAP else left == ordinary.value.maxX + REGION_GAP
  {
    if ordinary.None? { return 0.0, 0.0; }
    var o := ordinary.value;
    if Below(o) {
      left, top := (o.minX + o.maxX - width) / 2.0, o.maxY + REGION_GAP;
    } else {
      left, top := o.maxX + REGION_GAP, (o.minY + o.maxY - height) / 2.0;
    }
  }

  // ----- the pairs of all families

  ghost predicate PairsIn(families: seq<ReplayFamily>, centres: map<string, Point>) {
    forall p :: p in centres <==> exists f :: f in families && f.pair == p
  }

  ghost predicate StandBeyond(families: seq<ReplayFamily>, ordinary: Option<Bounds>, at: map<string, Point>, extent: real) {
    forall f :: f in families ==> f.pair in at && Beyond(ordinary, at[f.pair], extent)
  }

  ghost predicate Spaced(families: seq<ReplayFamily>, at: map<string, Point>, spacing: real) {
    forall i, j :: 0 <= i < j < |families| ==> SpacedAt(at, families[i].pair, families[j].pair, spacing)
  }

  ghost predicate SpacedAt(at: map<string, Point>, p: string, q: string, spacing: real) {
    p in at && q in at && Apart(at[p], at[q], spacing)
  }

  ghost predicate SideBySide(families: seq<ReplayFamily>, at: map<string, Point>, room: real) {
    forall f, g :: f in families && g in families && Less(f.region, g.region) ==> ClearIn(at, f.pair, g.pair, room)
  }

  /** Where the pairs stand: beyond the ordinary drawing, two extents and forty apart, regions further apart side by side. */
  ghost predicate PairsStand(families: seq<ReplayFamily>, ordinary: Option<Bounds>, at: map<string, Point>, extent: real) {
    && StandBeyond(families, ordinary, at, extent)
    && Spaced(families, at, extent * 2.0 + 40.0)
    && SideBySide(families, at, extent * 2.0 + REGION_GAP)
  }

  lemma RegionIndex(keys: seq<string>, families: seq<ReplayFamily>, f: ReplayFamily) returns (i: nat)
    requires f in families && forall g :: g in families ==> g.region in keys
    ensures i < |keys| && keys[i] == f.region
  {
    i :| 0 <= i < |keys| && keys[i] == f.region;
  }

  lemma PairsAreKeys(regions: seq<Region>, families: seq<ReplayFamily>, keys: seq<string>, extent: real, centres: map<string, Point>, p: string)
    requires RegionsFor(regions, families, keys, extent, |keys|) && Keyed(regions, |keys|, centres)
    requires forall g :: g in families ==> g.region in keys
    ensures p in centres <==> exists f :: f in families && f.pair == p
  {
    hide RegionFor;
    if p in centres {
      var k :| 0 <= k < |keys| && p in regions[k].pairs;
      PairOfRegion(regions, families, keys, extent, k, p);
    }
    if f :| f in families && f.pair == p {
      var i := RegionIndex(keys, families, f);
      PairOfRegion(regions, families, keys, extent, i, p);
    }
  }

  lemma PairStands(regions: seq<Region>, families: seq<ReplayFamily>, keys: seq<string>, extent: real, ordinary: Option<Bounds>,
                   centres: map<string, Point>, left: real, top: real, f: ReplayFamily)
    requires f in families && (forall g :: g in families ==> g.region in keys) && RegionsFor(regions, families, keys, extent, |keys|)
    requires Cornered(regions, |keys|, centres, left, top, extent)
    requires ordinary.Some? ==> if Below(ordinary.value) then top == ordinary.value.maxY + REGION_GAP else left == ordinary.value.maxX + REGION_GAP
    ensures f.pair in centres && Beyond(ordinary, centres[f.pair], extent)
  {
    hide FamiliesIn;
    var i := RegionIndex(keys, families, f);
    PairOfRegion(regions, families, keys, extent, i, f.pair);
    assert f.pair in regions[i].pairs && RegionFor(regions[i], families, keys[i], extent);
    assert Corner(centres[f.pair], left + extent, top - regions[i].minY);
  }

  lemma PairsClear(regions: seq<Region>, families: seq<ReplayFamily>, keys: seq<string>, extent: real, centres: map<string, Point>, room: real,
                   f: ReplayFamily, g: ReplayFamily)
    requires f in families && g in families && Less(f.region, g.region) && Ascending(keys)
    requires (forall h :: h in families ==> h.region in keys) && RegionsFor(regions, families, keys, extent, |keys|)
    requires Cleared(regions, |keys|, centres, room)
    ensures ClearIn(centres, f.pair, g.pair, room)
  {
    hide RegionFor, ClearIn;
    var i := RegionIndex(keys, families, f);
    var j := RegionIndex(keys, families, g);
    Asymmetric(f.region, g.region);
    PairOfRegion(regions, families, keys, extent, i, f.pair);
    PairOfRegion(regions, families, keys, extent, j, g.pair);
  }

  lemma AllKeys(regions: seq<Region>, families: seq<ReplayFamily>, keys: seq<string>, extent: real, centres: map<string, Point>)
    requires RegionsFor(regions, families, keys, extent, |keys|) && Keyed(regions, |keys|, centres)
    requires forall g :: g in families ==> g.region in keys
    ensures PairsIn(families, centres)
  {
    hide RegionsFor, Keyed;
    forall p ensures p in centres <==> exists f :: f in families && f.pair == p {
      PairsAreKeys(regions, families, keys, extent, centres, p);
    }
  }

  lemma AllBeyond(regions: seq<Region>, families: seq<ReplayFamily>, keys: seq<string>, extent: real, ordinary: Option<Bounds>,
                  centres: map<string, Point>, left: real, top: real)
    requires (forall g :: g in families ==> g.region in keys) && RegionsFor(regions, families, keys, extent, |keys|)
    requires Cornered(regions, |keys|, centres, left, top, extent)
    requires ordinary.Some? ==> if Below(ordinary.value) then top == ordinary.value.maxY + REGION_GAP else left == ordinary.value.maxX + REGION_GAP
    ensures StandBeyond(families, ordinary, centres, extent)
  {
    hide RegionsFor, Cornered, Beyond, Below;
    forall f | f in families ensures f.pair in centres && Beyond(ordinary, centres[f.pair], extent) {
      PairStands(regions, families, keys, extent, ordinary, centres, left, top, f);
    }
  }

  lemma AllClear(regions: seq<Region>, families: seq<ReplayFamily>, keys: seq<string>, extent: real, centres: map<string, Point>, room: real)
    requires (forall h :: h in families ==> h.region in keys) && RegionsFor(regions, families, keys, extent, |keys|)
    requires Cleared(regions, |keys|, centres, room) && Ascending(keys)
    ensures SideBySide(families, centres, room)
  {
    hide RegionsFor, Cleared, ClearIn, Less, Ascending;
    forall f, g | f in families && g in families && Less(f.region, g.region) ensures ClearIn(centres, f.pair, g.pair, room) {
      PairsClear(regions, families, keys, extent, centres, room, f, g);
    }
  }

  lemma AllSpaced(families: seq<ReplayFamily>, centres: map<string, Point>, spacing: real)
    requires OwnPairs(families) && PairsIn(families, centres)
    requires forall a, b :: a in centres && b in centres && a != b ==> Apart(centres[a], centres[b], spacing)
    ensures Spaced(families, centres, spacing)
  {
    hide Apart;
    forall i, j | 0 <= i < j < |families| ensures SpacedAt(centres, families[i].pair, families[j].pair, spacing) {
      assert families[i] in families && families[j] in families;
    }
  }

  /** One sorted list of the regions named, and every family in one of them. */
  method RegionKeys(families: seq<ReplayFamily>) returns (keys: seq<string>)
    ensures Ascending(keys) && Distinct(keys) && (families != [] ==> keys != [])
    ensures (forall f :: f in families ==> f.region in keys) && (forall key :: key in keys ==> exists f :: f in families && f.region == key)
  {
    keys := SortedKeys(set f | f in families :: f.region);
    KeysDiffer(keys);
    if families != [] { assert families[0] in families && families[0].region in keys; }
  }

  /** seedReplayPositions, the pairs: regions in key order, each with its own columns. */
  method SeedCentres(d: Drawing, families: seq<ReplayFamily>, ordinary: Option<Bounds>, extent: real) returns (centres: map<string, Point>)
    requires IsSqrt(d.sqrt) && families != [] && OwnPairs(families) && extent >= 0.0
    ensures PairsIn(families, centres) && PairsStand(families, ordinary, centres, extent)
  {
    hide RegionsFor, StandBeyond, Spaced, SideBySide, Apart, Cornered, Cleared, Keyed, FreshPairs, OwnPairs, PairsIn, Below, Fit, IsSqrt, Ascending, Distinct;
    var keys := RegionKeys(families);
    var regions := AllRegions(d, families, keys, extent, Fit(ordinary, |keys|, extent));
    RegionsAreFresh(regions, families, keys, extent);
    ColumnsOf(regions);
    AsMany(regions, families, keys, extent);
    var width, height := SizeOf(regions, extent);
    var left, top := StandAt(ordinary, width, height);
    centres := SeedPairs(regions, extent, left, top);
    AllKeys(regions, families, keys, extent, centres);
    AllBeyond(regions, families, keys, extent, ordinary, centres, left, top);
    AllSpaced(families, centres, extent * 2.0 + 40.0);
    AllClear(regions, families, keys, extent, centres, extent * 2.0 + REGION_GAP);
  }

  lemma AsMany(regions: seq<Region>, families: seq<ReplayFamily>, keys: seq<string>, extent: real)
    requires RegionsFor(regions, families, keys, extent, |keys|)
    ensures |regions| == |keys|
  {}

  lemma KeysDiffer(keys: seq<string>)
    requires Ascending(keys)
    ensures Distinct(keys)
  {
    forall i, j | 0 <= i < j < |keys| ensures keys[i] != keys[j] {
      Irreflexive(keys[i]);
    }
  }

  lemma ColumnsOf(regions: seq<Region>)
    requires FreshPairs(regions)
    ensures forall r :: r in regions ==> r.columns > 0
  {}

  // ----- and their runs

  ghost predicate Ringed(d: Drawing, f: ReplayFamily, seeds: map<string, Point>)
    requires d.pi > 0.0
  {
    f.pair in seeds && forall k :: 0 <= k < |f.runs| ==> f.runs[k] in seeds && seeds[f.runs[k]] == Ring(d, seeds[f.pair], f, k)
  }

  ghost predicate IsNode(families: seq<ReplayFamily>, id: string) {
    exists f :: f in families && (id == f.pair || id in f.runs)
  }

  /** One pair's runs placed around it; everything else stays. */
  method SeedRuns(d: Drawing, before: map<string, Point>, f: ReplayFamily) returns (seeds: map<string, Point>)
    requires d.pi > 0.0 && f.pair in before && f.pair !in f.runs && Distinct(f.runs)
    ensures Ringed(d, f, seeds) && Adds(before, seeds, f)
  {
    hide Ring;
    seeds := before;
    for k := 0 to |f.runs|
      invariant forall id :: id in seeds <==> id in before || id in f.runs[..k]
      invariant forall id :: id in before && id !in f.runs ==> seeds[id] == before[id]
      invariant forall m :: 0 <= m < k ==> f.runs[m] in seeds && seeds[f.runs[m]] == Ring(d, before[f.pair], f, m)
    {
      assert f.runs[k] in f.runs && f.runs[..k + 1] == f.runs[..k] + [f.runs[k]];
      seeds := seeds[f.runs[k] := Ring(d, seeds[f.pair], f, k)];
    }
    assert f.runs[..|f.runs|] == f.runs;
  }

  /** Each pair's runs on its own ring. */
  ghost predicate AllRinged(d: Drawing, families: seq<ReplayFamily>, n: nat, seeds: map<string, Point>)
    requires d.pi > 0.0 && n <= |families|
  {
    forall i :: 0 <= i < n ==> Ringed(d, families[i], seeds)
  }

  ghost predicate Seeded(d: Drawing, families: seq<ReplayFamily>, ordinary: Option<Bounds>, seeds: map<string, Point>)
    requires d.pi > 0.0
  {
    && (forall id :: id in seeds <==> IsNode(families, id))
    && AllRinged(d, families, |families|, seeds)
    && PairsStand(families, ordinary, seeds, Extent(d, families))
  }

  ghost predicate Holds(seeds: map<string, Point>, centres: map<string, Point>) {
    forall id :: id in centres ==> id in seeds && seeds[id] == centres[id]
  }

  ghost predicate RunsIn(families: seq<ReplayFamily>, n: nat, centres: map<string, Point>, seeds: map<string, Point>)
    requires n <= |families|
  {
    forall id :: id in seeds <==> id in centres || exists i :: 0 <= i < n && id in families[i].runs
  }

  ghost predicate Adds(before: map<string, Point>, after: map<string, Point>, f: ReplayFamily) {
    && (forall id :: id in after <==> id in before || id in f.runs)
    && (forall id :: id in before && id !in f.runs ==> after[id] == before[id])
  }

  lemma StillHolds(families: seq<ReplayFamily>, n: nat, centres: map<string, Point>, before: map<string, Point>, after: map<string, Point>)
    requires n < |families| && OneHome(families) && PairsIn(families, centres) && Holds(before, centres) && Adds(before, after, families[n])
    ensures Holds(after, centres)
  {
    forall id | id in centres ensures id in after && after[id] == centres[id] {
      var f :| f in families && f.pair == id;
      assert families[n] in families;
    }
  }

  lemma MoreRuns(families: seq<ReplayFamily>, n: nat, centres: map<string, Point>, before: map<string, Point>, after: map<string, Point>)
    requires n < |families| && RunsIn(families, n, centres, before) && Adds(before, after, families[n])
    ensures RunsIn(families, n + 1, centres, after)
  {
    forall id ensures id in after <==> id in centres || exists i :: 0 <= i < n + 1 && id in families[i].runs {
      if id in families[n].runs { assert n < n + 1; }
    }
  }

  lemma RingsKept(d: Drawing, families: seq<ReplayFamily>, n: nat, before: map<string, Point>, after: map<string, Point>)
    requires d.pi > 0.0 && n < |families| && OneHome(families) && AllRinged(d, families, n, before)
    requires Adds(before, after, families[n]) && Ringed(d, families[n], after)
    ensures AllRinged(d, families, n + 1, after)
  {
    hide Ringed, OneHome, Adds;
    forall i | 0 <= i < n ensures Ringed(d, families[i], after) {
      RingKept(d, families, i, n, before, after);
    }
  }

  lemma RingKept(d: Drawing, families: seq<ReplayFamily>, i: nat, n: nat, before: map<string, Point>, after: map<string, Point>)
    requires d.pi > 0.0 && i < n < |families| && OneHome(families) && Ringed(d, families[i], before) && Adds(before, after, families[n])
    ensures Ringed(d, families[i], after)
  {
    hide Ring;
    var f := families[i];
    assert f in families && families[n] in families;
    forall k | 0 <= k < |f.runs| ensures f.runs[k] in after && after[f.runs[k]] == before[f.runs[k]] {
      assert f.runs[k] in f.runs;
    }
  }

  /** Runs come on top of the pairs without moving them. */
  lemma StandsStill(families: seq<ReplayFamily>, ordinary: Option<Bounds>, centres: map<string, Point>, seeds: map<string, Point>, extent: real)
    requires PairsStand(families, ordinary, centres, extent) && Holds(seeds, centres)
    ensures PairsStand(families, ordinary, seeds, extent)
  {
    hide Beyond, Apart, Clear, Less;
    forall i, j | 0 <= i < j < |families| ensures SpacedAt(seeds, families[i].pair, families[j].pair, extent * 2.0 + 40.0) {
      assert SpacedAt(centres, families[i].pair, families[j].pair, extent * 2.0 + 40.0);
    }
    forall f, g | f in families && g in families && Less(f.region, g.region) ensures ClearIn(seeds, f.pair, g.pair, extent * 2.0 + REGION_GAP) {
      assert ClearIn(centres, f.pair, g.pair, extent * 2.0 + REGION_GAP);
    }
  }

  lemma NodesSeeded(families: seq<ReplayFamily>, centres: map<string, Point>, seeds: map<string, Point>)
    requires PairsIn(families, centres) && RunsIn(families, |families|, centres, seeds)
    ensures forall id :: id in seeds <==> IsNode(families, id)
  {
    forall id ensures id in seeds <==> IsNode(families, id) {
      if i :| 0 <= i < |families| && id in families[i].runs { assert families[i] in families; }
    }
  }

  lemma NoneSeeded(d: Drawing, families: seq<ReplayFamily>, ordinary: Option<Bounds>)
    requires d.pi > 0.0 && families == []
    ensures Seeded(d, families, ordinary, map[])
  {
    forall id ensures !IsNode(families, id) {}
  }

  lemma ExtentIsWide(d: Drawing, families: seq<ReplayFamily>)
    requires d.pi > 0.0
    ensures Extent(d, families) >= 0.0
    ensures forall f :: f in families ==> FamilyRadius(|f.runs|, d.pi) * ORBIT_LIMIT <= Extent(d, families)
  {
    hide FamilyRadius;
    forall f | f in families ensures FamilyRadius(|f.runs|, d.pi) >= 90.0 { RadiusIsWide(|f.runs|, d.pi); }
    if families != [] { assert families[0] in families; }
  }

  lemma NoRunsYet(d: Drawing, families: seq<ReplayFamily>, centres: map<string, Point>)
    requires d.pi > 0.0
    ensures RunsIn(families, 0, centres, centres) && Holds(centres, centres) && AllRinged(d, families, 0, centres)
  {}

  lemma PairSeeded(families: seq<ReplayFamily>, n: nat, centres: map<string, Point>, seeds: map<string, Point>)
    requires n < |families| && PairsIn(families, centres) && Holds(seeds, centres) && OneHome(families)
    ensures families[n].pair in seeds && families[n].pair !in families[n].runs && Distinct(families[n].runs)
  {
    assert families[n] in families;
  }

  lemma HomeHasPairs(families: seq<ReplayFamily>)
    requires OneHome(families)
    ensures OwnPairs(families)
  {}

  /** seedReplayPositions: nothing without a family; otherwise every pair in its slot and every run on its pair's ring. */
  method SeedReplays(d: Drawing, families: seq<ReplayFamily>, ordinary: Option<Bounds>) returns (seeds: map<string, Point>)
    requires Faithful(d) && OneHome(families)
    ensures Seeded(d, families, ordinary, seeds)
  {
    hide PairsIn, RunsIn, Holds, AllRinged, Ringed, PairsStand, Extent, IsHypot, OnCircle, IsSqrt, OwnPairs, OneHome, Adds, Distinct;
    if families == [] {
      NoneSeeded(d, families, ordinary);
      return map[];
    }
    ExtentIsWide(d, families);
    HomeHasPairs(families);
    var extent := Extent(d, families);
    var centres := SeedCentres(d, families, ordinary, extent);
    seeds := centres;
    NoRunsYet(d, families, centres);
    for i := 0 to |families|
      invariant RunsIn(families, i, centres, seeds) && Holds(seeds, centres) && AllRinged(d, families, i, seeds)
    {
      ghost var before := seeds;
      PairSeeded(families, i, centres, seeds);
      seeds := SeedRuns(d, seeds, families[i]);
      StillHolds(families, i, centres, before, seeds);
      MoreRuns(families, i, centres, before, seeds);
      RingsKept(d, families, i, before, seeds);
    }
    NodesSeeded(families, centres, seeds);
    StandsStill(families, ordinary, centres, seeds, extent);
  }
}
