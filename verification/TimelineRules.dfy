/** Where an item of the timeline would stand on its own, and in which order the blocks come. */
module TimelineRules {
  import opened Text
  import opened Sorting
  import opened Reals
  import opened Timeline

  /** The track: its leading zone at most forty, what is left of a hundred but for 0.4, the floor of a block, a span of one at least. */
  lemma TrackIs(r: Range)
    ensures Available(r) == 99.6 - Zone(r) && 0.0 <= Zone(r) <= 40.0
    ensures Zone(r) == (if r.zone.None? || r.zone.value <= 0.0 then 0.0 else if r.zone.value >= 40.0 then 40.0 else r.zone.value)
    ensures Minimum(r) == (if r.minimum.None? then 3.5 else if r.minimum.value <= 0.5 then 0.5 else r.minimum.value)
    ensures Span(r) == (if r.end - r.start <= 1.0 then 1.0 else r.end - r.start)
  {}

  /** On its own, an item stands and reaches in proportion: as far along the track as its start and its length along the span. */
  lemma RawIs(r: Range, id: string, start: real, end: real)
    ensures var raw := RawOf(r, id, start, end);
      && raw.id == id && raw.start == start
      && raw.left * Span(r) == (if start <= r.start then 0.0 else (start - r.start) * Available(r))
      && raw.width * Span(r) == (if end <= start then 0.0 else (end - start) * Available(r))
  {
    TrackIs(r);
    Proportion(start - r.start, Span(r), Available(r));
    Proportion(Max(end, start) - start, Span(r), Available(r));
  }

  lemma Proportion(a: real, span: real, available: real)
    requires span >= 1.0 && available >= 0.0
    ensures Max(0.0, a / span * available) * span == if a <= 0.0 then 0.0 else a * available
  {
    var q := a / span;
    assert q * span == a;
    assert q * available * span == q * span * available;
    if a > 0.0 {
      Quotient(a, span);
      ProductIsPositive(q, available);
    } else {
      ProductIsPositive(-q, available);
      assert -q * available == -(q * available);
      if q > 0.0 { StrictProduct(q, span); }
    }
  }

  /** One block for each item whose start and end are numbers, earlier starts first, and of one start as the ids compare. */
  lemma BlocksInOrder(r: Range, items: seq<Item>, ids: (string, string) -> bool)
    requires TotalPreorder(ids)
    ensures var ordered := Timeline.Ordered(r, items, ids);
      && (forall i, j :: 0 <= i < j < |ordered| ==>
            ordered[i].start < ordered[j].start || (ordered[i].start == ordered[j].start && ids(ordered[i].id, ordered[j].id)))
      && forall raw :: raw in ordered <==> exists item :: item in items && item.start.Some? && item.end.Some? && raw == RawOf(r, item.id, item.start.value, item.end.value)
  {
    hide RawOf, Sort, TotalPreorder;
    var ordered := Timeline.Ordered(r, items, ids);
    OrderedByStart(r, items, ids);
    RawAllHas(r, items);
    forall raw ensures raw in ordered <==> raw in RawAll(r, items) {
      assert raw in ordered <==> raw in multiset(ordered);
    }
  }

  lemma {:induction false} RawAllHas(r: Range, items: seq<Item>)
    ensures forall raw :: raw in RawAll(r, items) <==>
      exists item :: item in items && item.start.Some? && item.end.Some? && raw == RawOf(r, item.id, item.start.value, item.end.value)
  {
    hide RawOf;
    if items != [] {
      RawAllHas(r, items[1..]);
      assert items == [items[0]] + items[1..];
    }
  }

  // ----- the blocks

  /** What lies free before a block: from the track's start, or from the farthest earlier end, to where it stands; none where one reaches over. */
  ghost predicate FreeBefore(ordered: seq<Raw>, i: int, gap: real) {
    && 0 <= i < |ordered| && 0.0 <= gap <= ordered[i].left
    && (forall j :: 0 <= j < i ==> Reach(ordered[j]) + gap <= ordered[i].left || gap == 0.0)
    && (gap == 0.0 || gap == ordered[i].left || exists j :: 0 <= j < i && Reach(ordered[j]) + gap == ordered[i].left)
    && (gap == 0.0 ==> ordered[i].left == 0.0 || exists j :: 0 <= j < i && Reach(ordered[j]) >= ordered[i].left)
  }

  ghost function Reach(raw: Raw): real {
    raw.left + raw.width
  }

  /** The width a block asks for: its own, or the floor where that is more. */
  ghost predicate Asks(raw: Raw, minimum: real, width: real) {
    width >= minimum && width >= raw.width && (width == minimum || width == raw.width)
  }

  ghost predicate Wanted(ordered: seq<Raw>, minimum: real, widths: seq<real>, gaps: seq<real>) {
    |widths| == |gaps| == |ordered| && forall i :: 0 <= i < |ordered| ==> Asks(ordered[i], minimum, widths[i]) && FreeBefore(ordered, i, gaps[i])
  }

  /** Block after block: first a part of what lay free before it, then the floor with a share of what it asked above that. */
  ghost predicate Laid(b: seq<Block>, zone: real, minimum: real, widths: seq<real>, gaps: seq<real>, share: real, part: real) {
    |b| == |widths| == |gaps| && forall i :: 0 <= i < |b| ==>
      && b[i].left == (if i == 0 then zone else b[i - 1].left + b[i - 1].width) + gaps[i] * part
      && b[i].width == minimum + (widths[i] - minimum) * share
  }

  lemma {:induction false} EdgeIs(ordered: seq<Raw>)
    ensures Edge(ordered) >= 0.0 && forall j :: 0 <= j < |ordered| ==> Reach(ordered[j]) <= Edge(ordered)
    ensures Edge(ordered) == 0.0 || exists j :: 0 <= j < |ordered| && Reach(ordered[j]) == Edge(ordered)
  {
    if ordered != [] {
      var n := |ordered| - 1;
      EdgeIs(ordered[..n]);
      if Edge(ordered[..n]) != 0.0 {
        var j :| 0 <= j < n && Reach(ordered[..n][j]) == Edge(ordered[..n]);
        assert ordered[j] == ordered[..n][j];
      }
    }
  }

  lemma GapIs(ordered: seq<Raw>, i: nat)
    requires i < |ordered| && ordered[i].left >= 0.0
    ensures FreeBefore(ordered, i, Gap(ordered, i))
  {
    var edge := Edge(ordered[..i]);
    EdgeIs(ordered[..i]);
    forall j | 0 <= j < i ensures Reach(ordered[j]) <= edge { assert ordered[j] == ordered[..i][j]; }
    if edge != 0.0 {
      var j :| 0 <= j < i && Reach(ordered[..i][j]) == edge;
      assert ordered[j] == ordered[..i][j];
    }
  }

  lemma LaidIf(ordered: seq<Raw>, r: Range, b: seq<Block>, widths: seq<real>, gaps: seq<real>, share: real, part: real)
    requires |widths| == |gaps| == |ordered| && b == Blocks(ordered, Zone(r), Apart(ordered, r), Wide(ordered, r))
    requires forall i :: 0 <= i < |ordered| ==> Apart(ordered, r)[i] == gaps[i] * part
    requires forall i :: 0 <= i < |ordered| ==> Wide(ordered, r)[i] == Minimum(r) + (widths[i] - Minimum(r)) * share
    ensures Laid(b, Zone(r), Minimum(r), widths, gaps, share, part)
  {
    hide Sum, Apart, Wide, Zone, Minimum;
    var g, w := Apart(ordered, r), Wide(ordered, r);
    forall i | 0 <= i < |b| ensures b[i].left == (if i == 0 then Zone(r) else b[i - 1].left + b[i - 1].width) + g[i] {
      SumStep(g, i);
      if i > 0 { SumStep(w, i - 1); }
      NothingSummed(g, w);
    }
  }

  lemma NothingSummed(g: seq<real>, w: seq<real>)
    ensures Sum(g[..0]) == 0.0 && Sum(w[..0]) == 0.0
  {}

  lemma Ratio(a: real, e: real, total: real)
    requires total > 0.0
    ensures a * e / total == e * (a / total) && (a >= 0.0 ==> a / total >= 0.0) && (a < total ==> a / total < 1.0)
  {
    var q := a / total;
    assert q * total == a;
    assert e * q * total == a * e;
    if q < 0.0 { assert q * total < 0.0; }
    if q >= 1.0 { assert (q - 1.0) * total >= 0.0; }
  }

  lemma ShareOf(minimum: real, spare: real, total: real) returns (share: real)
    requires spare >= 0.0 && total >= 0.0
    ensures share >= 0.0 && (spare == 0.0 ==> share == 0.0)
    ensures forall excess: real :: total > 0.0 || excess == 0.0 ==> Portion(minimum, spare, excess, total) == minimum + excess * share
  {
    if total == 0.0 {
      share := 0.0;
    } else {
      share := if spare == 0.0 then 0.0 else spare / total;
      Ratio(spare, 0.0, total);
      forall excess: real ensures Portion(minimum, spare, excess, total) == minimum + excess * (spare / total) { Ratio(spare, excess, total); }
      if spare == 0.0 { assert spare / total == 0.0; }
    }
  }

  lemma ShrunkAt(widths: seq<real>, minimum: real, available: real, i: nat)
    requires i < |widths| && widths[i] >= minimum
    ensures Shrunk(widths, minimum, available)[i] == Portion(minimum, Spare(minimum, |widths|, available), widths[i] - minimum, Sum(Excess(widths, minimum)))
    ensures Spare(minimum, |widths|, available) >= 0.0
    ensures available < minimum * |widths| as real ==> Spare(minimum, |widths|, available) == 0.0
  {
    hide Sum, Portion;
  }

  /** Without anything asked above the floor, nobody asks it. */
  lemma {:induction false} NoExcess(s: seq<real>, i: nat)
    requires i < |s| && (forall k :: 0 <= k < |s| ==> s[k] >= 0.0) && Sum(s) == 0.0
    ensures s[i] == 0.0
  {
    var n := |s| - 1;
    SumIsPositive(s[..n]);
    if i < n { NoExcess(s[..n], i); }
  }

  lemma ShrunkAre(widths: seq<real>, minimum: real, available: real) returns (share: real)
    requires widths != [] && forall i :: 0 <= i < |widths| ==> widths[i] >= minimum
    ensures share >= 0.0 && forall i :: 0 <= i < |widths| ==> Shrunk(widths, minimum, available)[i] == minimum + (widths[i] - minimum) * share
    ensures available < minimum * |widths| as real ==> share == 0.0
  {
    hide Sum, Portion, Shrunk, Spare;
    var excess := Excess(widths, minimum);
    SumIsPositive(excess);
    ShrunkAt(widths, minimum, available, 0);
    share := ShareOf(minimum, Spare(minimum, |widths|, available), Sum(excess));
    forall i | 0 <= i < |widths| ensures Shrunk(widths, minimum, available)[i] == minimum + (widths[i] - minimum) * share {
      ShrunkAt(widths, minimum, available, i);
      if Sum(excess) == 0.0 { NoExcess(excess, i); }
    }
  }

  /**
   The blocks. Where everything fits, each has the width it asks for after all that lay free before it. Where only the gaps are
   too much, they shrink alike, and the last block ends the track. Where the widths alone are, no gap stays and what they ask
   above the floor shrinks alike, to end the track or, if even the floors pass it, to nothing.
  */
  lemma BlocksAre(ordered: seq<Raw>, r: Range) returns (widths: seq<real>, gaps: seq<real>, share: real, part: real)
    requires ordered != [] && forall i :: 0 <= i < |ordered| ==> ordered[i].left >= 0.0 && ordered[i].width >= 0.0
    ensures Wanted(ordered, Minimum(r), widths, gaps) && Laid(Layout(ordered, r), Zone(r), Minimum(r), widths, gaps, share, part)
    ensures Sum(widths) + Sum(gaps) <= Available(r) ==> share == 1.0 && part == 1.0
    ensures Sum(widths) <= Available(r) < Sum(widths) + Sum(gaps) ==> share == 1.0 && 0.0 <= part < 1.0 && LastEdge(Layout(ordered, r)) == 99.6
    ensures Sum(widths) > Available(r) ==> part == 0.0 && share >= 0.0
    ensures Sum(widths) > Available(r) ==> if Minimum(r) * |ordered| as real <= Available(r) then LastEdge(Layout(ordered, r)) == 99.6 else share == 0.0
  {
    hide *;
    widths, gaps := Widened(ordered, Minimum(r)), Gaps(ordered);
    forall i | 0 <= i < |ordered| ensures Asks(ordered[i], Minimum(r), widths[i]) && FreeBefore(ordered, i, gaps[i]) {
      GapIs(ordered, i);
      AsksIs(ordered[i], Minimum(r));
    }
    WantedIf(ordered, Minimum(r), widths, gaps);
    LayoutIs(ordered, r);
    GapsArePositive(ordered);
    SumIsPositive(gaps);
    WidthsAtLeast(ordered, r);
    AvailableIs(r);
    LastEdgeIs(ordered, Zone(r), Apart(ordered, r), Wide(ordered, r));
    share, part := Regime(ordered, r);
    LaidIf(ordered, r, Layout(ordered, r), widths, gaps, share, part);
  }

  lemma AsksIs(raw: Raw, minimum: real)
    ensures Asks(raw, minimum, Max(minimum, raw.width))
  {}

  lemma WantedIf(ordered: seq<Raw>, minimum: real, widths: seq<real>, gaps: seq<real>)
    requires |widths| == |gaps| == |ordered|
    requires forall i :: 0 <= i < |ordered| ==> Asks(ordered[i], minimum, widths[i]) && FreeBefore(ordered, i, gaps[i])
    ensures Wanted(ordered, minimum, widths, gaps)
  {}

  lemma Regime(ordered: seq<Raw>, r: Range) returns (share: real, part: real)
    requires ordered != []
    ensures forall i :: 0 <= i < |ordered| ==> Apart(ordered, r)[i] == Gaps(ordered)[i] * part
    ensures forall i :: 0 <= i < |ordered| ==> Wide(ordered, r)[i] == Minimum(r) + (Widened(ordered, Minimum(r))[i] - Minimum(r)) * share
    ensures var w, g, room := Sum(Widened(ordered, Minimum(r))), Sum(Gaps(ordered)), Available(r);
      && (w + g <= room ==> share == 1.0 && part == 1.0)
      && (w <= room < w + g ==> share == 1.0 && 0.0 <= part < 1.0 && Sum(Wide(ordered, r)) + Sum(Apart(ordered, r)) == room)
      && (w > room ==> part == 0.0 && share >= 0.0)
      && (w > room ==> if Minimum(r) * |ordered| as real <= room then Sum(Wide(ordered, r)) + Sum(Apart(ordered, r)) == room else share == 0.0)
  {
    hide Sum, Shrunk, Gap, Minimum, Available;
    var widths, gaps, room := Widened(ordered, Minimum(r)), Gaps(ordered), Available(r);
    WidthsAtLeast(ordered, r);
    GapsArePositive(ordered);
    SumIsPositive(gaps);
    if TooWide(widths, room) {
      part := 0.0;
      share := ShrunkAre(widths, Minimum(r), room);
      SumZeros(|gaps|);
      if Minimum(r) * |widths| as real <= room { ShrunkFills(widths, Minimum(r), room); }
    } else if TooSpread(widths, gaps, room) {
      share, part := 1.0, (room - Sum(widths)) / Sum(gaps);
      Ratio(room - Sum(widths), 0.0, Sum(gaps));
      ScaledFills(gaps, room - Sum(widths));
    } else {
      share, part := 1.0, 1.0;
    }
  }
}
