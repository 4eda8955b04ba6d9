/** Where replay pairs start: regions side by side, pairs in rows, a whole spacing apart. */
module ReplaySlots {
  import opened Reals
  import opened ReplayOrbits

  /** One region of pairs laid out row by row. */
  datatype Region = Region(pairs: seq<string>, columns: nat, minY: real)

  const REGION_GAP := 120.0

  ghost predicate Apart(a: Point, b: Point, spacing: real) {
    b.x - a.x >= spacing || a.x - b.x >= spacing || b.y - a.y >= spacing || a.y - b.y >= spacing
  }

  function Slot(originX: real, originY: real, spacing: real, columns: nat, i: nat): Point
    requires columns > 0
  {
    Point(originX + (i % columns) as real * spacing, originY + (i / columns) as real * spacing)
  }

  lemma StepsApart(a: nat, b: nat, spacing: real, u: real, v: real)
    requires a < b && spacing >= 0.0 && u == a as real * spacing && v == b as real * spacing
    ensures v - u >= spacing
  {
    var gap := (b - a - 1) as real;
    ProductIsPositive(gap, spacing);
    assert b as real == a as real + 1.0 + gap;
    assert v == u + spacing + gap * spacing;
  }

  /** Two slots of one region differ by a whole spacing in their column or in their row. */
  lemma SlotsApart(originX: real, originY: real, spacing: real, columns: nat, i: nat, j: nat)
    requires columns > 0 && i < j && spacing >= 0.0
    ensures Apart(Slot(originX, originY, spacing, columns, i), Slot(originX, originY, spacing, columns, j), spacing)
  {
    var a, b := Slot(originX, originY, spacing, columns, i), Slot(originX, originY, spacing, columns, j);
    if i % columns == j % columns {
      RowsRise(i, j, columns);
      Offset(originY, a.y, b.y, i / columns, j / columns, spacing);
    } else if i % columns < j % columns {
      Offset(originX, a.x, b.x, i % columns, j % columns, spacing);
    } else {
      Offset(originX, b.x, a.x, j % columns, i % columns, spacing);
    }
  }

  lemma Offset(origin: real, a: real, b: real, m: nat, n: nat, spacing: real)
    requires m < n && spacing >= 0.0 && a == origin + m as real * spacing && b == origin + n as real * spacing
    ensures b - a >= spacing
  {
    StepsApart(m, n, spacing, a - origin, b - origin);
  }

  lemma Multiples(columns: nat, a: nat, b: nat)
    requires a >= b
    ensures columns * a >= columns * b
  {}

  lemma RowsRise(i: nat, j: nat, columns: nat)
    requires columns > 0 && i < j && i % columns == j % columns
    ensures i / columns < j / columns
  {
    assert i == columns * (i / columns) + i % columns && j == columns * (j / columns) + j % columns;
    if i / columns >= j / columns { Multiples(columns, i / columns, j / columns); }
  }

  lemma SlotInWidth(originX: real, originY: real, spacing: real, columns: nat, i: nat)
    requires columns > 0 && spacing >= 0.0
    ensures originX <= Slot(originX, originY, spacing, columns, i).x <= originX + (columns - 1) as real * spacing
  {
    var c := i % columns;
    ProductIsPositive(c as real, spacing);
    ProductIsPositive((columns - 1 - c) as real, spacing);
    assert (columns - 1) as real * spacing == c as real * spacing + (columns - 1 - c) as real * spacing;
  }

  /** All pairs placed so far: spaced from each other, and left of where the next region starts. */
  ghost predicate SeededUpTo(centres: map<string, Point>, spacing: real, right: real) {
    && (forall a, b :: a in centres && b in centres && a != b ==> Apart(centres[a], centres[b], spacing))
    && (forall a :: a in centres ==> centres[a].x <= right)
  }

  ghost predicate FreshPairs(regions: seq<Region>) {
    && (forall r :: r in regions ==> r.columns > 0)
    && (forall i, a, b :: 0 <= i < |regions| && 0 <= a < b < |regions[i].pairs| ==> regions[i].pairs[a] != regions[i].pairs[b])
    && (forall i, j, p :: 0 <= i < j < |regions| && p in regions[i].pairs ==> p !in regions[j].pairs)
  }

  /** What one region adds: its first n pairs in their slots. */
  ghost predicate RegionSeeded(before: map<string, Point>, centres: map<string, Point>, region: Region, n: nat, originX: real, originY: real, spacing: real)
    requires region.columns > 0 && n <= |region.pairs|
  {
    && (forall a :: a in centres <==> a in before || exists k :: 0 <= k < n && region.pairs[k] == a)
    && (forall a :: a in before ==> centres[a] == before[a])
    && (forall k :: 0 <= k < n ==> region.pairs[k] in centres && centres[region.pairs[k]] == Slot(originX, originY, spacing, region.columns, k))
  }

  lemma RegionAdded(before: map<string, Point>, centres: map<string, Point>, region: Region, left: real, extent: real, originY: real, spacing: real, width: real)
    requires region.columns > 0 && extent >= 0.0 && spacing == extent * 2.0 + 40.0 && width == (region.columns - 1) as real * spacing + extent * 2.0
    requires SeededUpTo(before, spacing, left - REGION_GAP - extent)
    requires RegionSeeded(before, centres, region, |region.pairs|, left + extent, originY, spacing)
    ensures SeededUpTo(centres, spacing, left + width - extent)
  {
    hide Slot, Apart;
    var ox := left + extent;
    ProductIsPositive((region.columns - 1) as real, spacing);
    forall a | a in centres && a !in before ensures ox <= centres[a].x <= left + width - extent {
      var k :| 0 <= k < |region.pairs| && region.pairs[k] == a;
      SlotInWidth(ox, originY, spacing, region.columns, k);
    }
    forall a, b | a in centres && b in centres && a != b ensures Apart(centres[a], centres[b], spacing) {
      if a in before && b in before {
        assert Apart(before[a], before[b], spacing);
      } else if a !in before && b !in before {
        var i :| 0 <= i < |region.pairs| && region.pairs[i] == a;
        var j :| 0 <= j < |region.pairs| && region.pairs[j] == b;
        if i < j { SlotsApart(ox, originY, spacing, region.columns, i, j); } else { SlotsApart(ox, originY, spacing, region.columns, j, i); }
        ApartBack(centres[a], centres[b], spacing);
      } else if a in before {
        LeftIsApart(centres[a], centres[b], spacing, left - REGION_GAP - extent);
      } else {
        LeftIsApart(centres[b], centres[a], spacing, left - REGION_GAP - extent);
        ApartBack(centres[a], centres[b], spacing);
      }
    }
  }

  lemma ApartBack(a: Point, b: Point, spacing: real)
    ensures Apart(a, b, spacing) <==> Apart(b, a, spacing)
  {}

  /** A later region starts more than a whole spacing right of every pair before it. */
  lemma LeftIsApart(a: Point, b: Point, spacing: real, right: real)
    requires a.x <= right && right + spacing <= b.x
    ensures Apart(a, b, spacing)
  {}

  lemma NothingSeeded(spacing: real, right: real)
    ensures SeededUpTo(map[], spacing, right)
  {}

  lemma AllApart(centres: map<string, Point>, spacing: real, right: real)
    requires SeededUpTo(centres, spacing, right)
    ensures forall a, b :: a in centres && b in centres && a != b ==> Apart(centres[a], centres[b], spacing)
  {}

  method SeedRegion(before: map<string, Point>, region: Region, originX: real, originY: real, spacing: real) returns (centres: map<string, Point>)
    requires region.columns > 0 && (forall p :: p in region.pairs ==> p !in before)
    requires forall a, b :: 0 <= a < b < |region.pairs| ==> region.pairs[a] != region.pairs[b]
    ensures RegionSeeded(before, centres, region, |region.pairs|, originX, originY, spacing)
  {
    hide Slot;
    centres := before;
    for k := 0 to |region.pairs|
      invariant RegionSeeded(before, centres, region, k, originX, originY, spacing)
    {
      assert region.pairs[k] in region.pairs;
      centres := centres[region.pairs[k] := Slot(originX, originY, spacing, region.columns, k)];
    }
  }

  ghost predicate Clear(a: Point, b: Point, room: real) {
    a.x + room <= b.x
  }

  ghost predicate Corner(at: Point, x: real, y: real) {
    x <= at.x && y <= at.y
  }

  /** The first n regions stand inside the drawing's corner. */
  ghost predicate Cornered(regions: seq<Region>, n: nat, centres: map<string, Point>, start: real, top: real, extent: real)
    requires n <= |regions|
  {
    forall i, p :: 0 <= i < n && p in regions[i].pairs ==> p in centres && Corner(centres[p], start + extent, top - regions[i].minY)
  }

  /** Each of the first n regions is clear of the ones before it. */
  ghost predicate Cleared(regions: seq<Region>, n: nat, centres: map<string, Point>, room: real)
    requires n <= |regions|
  {
    forall i, j, p, q :: 0 <= i < j < n && p in regions[i].pairs && q in regions[j].pairs ==> ClearIn(centres, p, q, room)
  }

  ghost predicate ClearIn(centres: map<string, Point>, p: string, q: string, room: real) {
    p in centres && q in centres && Clear(centres[p], centres[q], room)
  }

  ghost predicate Keyed(regions: seq<Region>, n: nat, centres: map<string, Point>)
    requires n <= |regions|
  {
    forall a :: a in centres <==> exists k :: 0 <= k < n && a in regions[k].pairs
  }

  lemma RegionStands(before: map<string, Point>, centres: map<string, Point>, region: Region, originX: real, originY: real, spacing: real, p: string)
    requires region.columns > 0 && spacing >= 0.0 && p in region.pairs
    requires RegionSeeded(before, centres, region, |region.pairs|, originX, originY, spacing)
    ensures p in centres && Corner(centres[p], originX, originY)
  {
    var k :| 0 <= k < |region.pairs| && region.pairs[k] == p;
    SlotInWidth(originX, originY, spacing, region.columns, k);
    SlotBelow(originX, originY, spacing, region.columns, k);
  }

  lemma SlotBelow(originX: real, originY: real, spacing: real, columns: nat, i: nat)
    requires columns > 0 && spacing >= 0.0
    ensures originY <= Slot(originX, originY, spacing, columns, i).y
  {
    ProductIsPositive((i / columns) as real, spacing);
  }

  lemma CornersMove(p: Point, x: real, y: real, x0: real)
    requires Corner(p, x, y) && x0 <= x
    ensures Corner(p, x0, y)
  {}

  lemma KeepsBefore(before: map<string, Point>, centres: map<string, Point>, region: Region, originX: real, originY: real, spacing: real, p: string)
    requires region.columns > 0 && p in before
    requires RegionSeeded(before, centres, region, |region.pairs|, originX, originY, spacing)
    ensures p in centres && centres[p] == before[p]
  {}

  lemma OneMoreCornered(regions: seq<Region>, n: nat, before: map<string, Point>, centres: map<string, Point>, start: real, left: real, top: real, extent: real, spacing: real)
    requires n < |regions| && regions[n].columns > 0 && spacing >= 0.0 && start <= left && Cornered(regions, n, before, start, top, extent)
    requires RegionSeeded(before, centres, regions[n], |regions[n].pairs|, left + extent, top - regions[n].minY, spacing)
    ensures Cornered(regions, n + 1, centres, start, top, extent)
  {
    hide Slot, RegionSeeded, Corner;
    forall i, p | 0 <= i < n + 1 && p in regions[i].pairs ensures p in centres && Corner(centres[p], start + extent, top - regions[i].minY) {
      if i < n {
        KeepsBefore(before, centres, regions[n], left + extent, top - regions[n].minY, spacing, p);
      } else {
        RegionStands(before, centres, regions[n], left + extent, top - regions[n].minY, spacing, p);
        CornersMove(centres[p], left + extent, top - regions[n].minY, start + extent);
      }
    }
  }

  lemma ClearedOf(a: Point, b: Point, right: real, originX: real, originY: real, room: real)
    requires a.x <= right && right + room <= originX && Corner(b, originX, originY)
    ensures Clear(a, b, room)
  {}

  lemma OneMoreCleared(regions: seq<Region>, n: nat, before: map<string, Point>, centres: map<string, Point>, left: real, originY: real, extent: real, spacing: real, room: real)
    requires n < |regions| && regions[n].columns > 0 && spacing >= 0.0 && room == extent * 2.0 + REGION_GAP
    requires Keyed(regions, n, before) && Cleared(regions, n, before, room)
    requires forall a :: a in before ==> before[a].x <= left - REGION_GAP - extent
    requires RegionSeeded(before, centres, regions[n], |regions[n].pairs|, left + extent, originY, spacing)
    ensures Cleared(regions, n + 1, centres, room)
  {
    hide Slot, RegionSeeded, Corner, Clear;
    forall i, j, p, q | 0 <= i < j < n + 1 && p in regions[i].pairs && q in regions[j].pairs
      ensures ClearIn(centres, p, q, room)
    {
      assert p in before;
      KeepsBefore(before, centres, regions[n], left + extent, originY, spacing, p);
      if j < n {
        assert q in before;
        KeepsBefore(before, centres, regions[n], left + extent, originY, spacing, q);
        assert ClearIn(before, p, q, room);
      } else {
        RegionStands(before, centres, regions[n], left + extent, originY, spacing, q);
        ClearedOf(before[p], centres[q], left - REGION_GAP - extent, left + extent, originY, room);
      }
    }
  }

  lemma OneMoreKeyed(regions: seq<Region>, n: nat, before: map<string, Point>, centres: map<string, Point>, originX: real, originY: real, spacing: real)
    requires n < |regions| && regions[n].columns > 0 && Keyed(regions, n, before)
    requires RegionSeeded(before, centres, regions[n], |regions[n].pairs|, originX, originY, spacing)
    ensures Keyed(regions, n + 1, centres)
  {
    hide Slot;
    forall a ensures a in centres <==> exists k :: 0 <= k < n + 1 && a in regions[k].pairs {
      if a in regions[n].pairs { assert 0 <= n < n + 1; }
    }
  }

  lemma NothingPlaced(regions: seq<Region>, start: real, top: real, extent: real, room: real)
    ensures Keyed(regions, 0, map[]) && Cornered(regions, 0, map[], start, top, extent) && Cleared(regions, 0, map[], room)
  {}

  lemma NotYet(regions: seq<Region>, n: nat, centres: map<string, Point>)
    requires n < |regions| && FreshPairs(regions) && Keyed(regions, n, centres)
    ensures regions[n].columns > 0 && (forall p :: p in regions[n].pairs ==> p !in centres)
    ensures forall a, b :: 0 <= a < b < |regions[n].pairs| ==> regions[n].pairs[a] != regions[n].pairs[b]
  {}

  lemma LeftOf(centres: map<string, Point>, spacing: real, right: real)
    requires SeededUpTo(centres, spacing, right)
    ensures forall a :: a in centres ==> centres[a].x <= right
  {}

  /** The centres of all pairs: regions side by side from the corner, pairs a whole spacing apart. */
  method SeedPairs(regions: seq<Region>, extent: real, start: real, top: real) returns (centres: map<string, Point>)
    requires extent >= 0.0 && FreshPairs(regions)
    ensures Keyed(regions, |regions|, centres)
    ensures forall a, b :: a in centres && b in centres && a != b ==> Apart(centres[a], centres[b], extent * 2.0 + 40.0)
    ensures Cornered(regions, |regions|, centres, start, top, extent)
    ensures Cleared(regions, |regions|, centres, extent * 2.0 + REGION_GAP)
  {
    hide SeededUpTo, Apart, Slot, Keyed, Cornered, Cleared, RegionSeeded, FreshPairs;
    var spacing := extent * 2.0 + 40.0;
    centres := map[];
    NothingSeeded(spacing, start - REGION_GAP - extent);
    NothingPlaced(regions, start, top, extent, extent * 2.0 + REGION_GAP);
    var left := start;
    for i := 0 to |regions|
      invariant start <= left && SeededUpTo(centres, spacing, left - REGION_GAP - extent) && Keyed(regions, i, centres)
      invariant Cornered(regions, i, centres, start, top, extent) && Cleared(regions, i, centres, extent * 2.0 + REGION_GAP)
    {
      var region := regions[i];
      var originX, originY := left + extent, top - region.minY;
      ghost var before := centres;
      NotYet(regions, i, centres);
      centres := SeedRegion(centres, region, originX, originY, spacing);
      var width := (region.columns - 1) as real * spacing + extent * 2.0;
      RegionAdded(before, centres, region, left, extent, originY, spacing, width);
      LeftOf(before, spacing, left - REGION_GAP - extent);
      OneMoreKeyed(regions, i, before, centres, originX, originY, spacing);
      OneMoreCornered(regions, i, before, centres, start, left, top, extent, spacing);
      OneMoreCleared(regions, i, before, centres, left, originY, extent, spacing, extent * 2.0 + REGION_GAP);
      ProductIsPositive((region.columns - 1) as real, spacing);
      left := left + width + REGION_GAP;
    }
    AllApart(centres, spacing, left - REGION_GAP - extent);
  }

  /** A whole spacing apart in one coordinate is at least that far apart. */
  lemma ApartIsFar(hypot: (real, real) -> real, a: Point, b: Point, spacing: real)
    requires IsHypot(hypot) && spacing >= 0.0 && Apart(a, b, spacing)
    ensures Distance(hypot, a, b) >= spacing
  {
    var x, y, d := b.x - a.x, b.y - a.y, hypot(b.x - a.x, b.y - a.y);
    SquareIsPositive(x);
    SquareIsPositive(y);
    if x >= spacing { SquaresGrow(x, spacing); } else if -x >= spacing { SquaresGrow(-x, spacing); }
    else if y >= spacing { SquaresGrow(y, spacing); } else { SquaresGrow(-y, spacing); }
    SmallerRoot(spacing, d);
  }

  lemma SquaresGrow(x: real, y: real)
    requires x >= y >= 0.0
    ensures x * x >= y * y
  {
    ProductIsPositive(x - y, x + y);
    assert x * x - y * y == (x - y) * (x + y);
  }
}
