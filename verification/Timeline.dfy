/** Timeline blocks: readable minimum widths, never overlapping, inside the track whenever they can be. */
module Timeline {
  import opened Text
  import opened Sorting
  import opened Reals

  /** Start and end are None when they are not finite numbers. */
  datatype Item = Item(id: string, start: Option<real>, end: Option<real>)
  datatype Raw = Raw(id: string, start: real, left: real, width: real)
  datatype Block = Block(id: string, left: real, width: real)
  datatype Range = Range(start: real, end: real, zone: Option<real>, minimum: Option<real>)

  function Zone(r: Range): real {
    Max(0.0, Min(40.0, if r.zone.Some? then r.zone.value else 0.0))
  }

  function Minimum(r: Range): real {
    Max(0.5, if r.minimum.Some? then r.minimum.value else 3.5)
  }

  function Available(r: Range): real {
    100.0 - Zone(r) - 0.4
  }

  function Span(r: Range): real {
    Max(1.0, r.end - r.start)
  }

  function RawOf(r: Range, id: string, start: real, end: real): Raw {
    Raw(id, start, Max(0.0, (start - r.start) / Span(r) * Available(r)), Max(0.0, (Max(end, start) - start) / Span(r) * Available(r)))
  }

  function RawAll(r: Range, items: seq<Item>): seq<Raw> {
    if items == [] then []
    else (if items[0].start.Some? && items[0].end.Some? then [RawOf(r, items[0].id, items[0].start.value, items[0].end.value)] else [])
         + RawAll(r, items[1..])
  }

  /** By start, then as the ids compare. */
  function ByStart(ids: (string, string) -> bool): (Raw, Raw) -> bool {
    (a: Raw, b: Raw) => a.start < b.start || (a.start == b.start && ids(a.id, b.id))
  }

  function Ordered(r: Range, items: seq<Item>, ids: (string, string) -> bool): seq<Raw> {
    Sort(RawAll(r, items), ByStart(ids))
  }

  function Finite(items: seq<Item>): seq<Item> {
    if items == [] then []
    else (if items[0].start.Some? && items[0].end.Some? then [items[0]] else []) + Finite(items[1..])
  }

  lemma {:induction false} RawAllIs(r: Range, items: seq<Item>)
    ensures |RawAll(r, items)| == |Finite(items)|
    ensures forall i :: 0 <= i < |Finite(items)| ==>
      && Finite(items)[i].start.Some? && Finite(items)[i].end.Some?
      && RawAll(r, items)[i] == RawOf(r, Finite(items)[i].id, Finite(items)[i].start.value, Finite(items)[i].end.value)
  {
    hide RawOf;
    if items != [] { RawAllIs(r, items[1..]); }
  }

  /** The blocks are the finite items, each once, by start and then as the ids compare. */
  lemma OrderedByStart(r: Range, items: seq<Item>, ids: (string, string) -> bool)
    requires TotalPreorder(ids)
    ensures multiset(Ordered(r, items, ids)) == multiset(RawAll(r, items))
    ensures forall i, j :: 0 <= i < j < |Ordered(r, items, ids)| ==> ByStart(ids)(Ordered(r, items, ids)[i], Ordered(r, items, ids)[j])
    ensures forall i :: 0 <= i < |Ordered(r, items, ids)| ==> Ordered(r, items, ids)[i].left >= 0.0 && Ordered(r, items, ids)[i].width >= 0.0
  {
    hide Sort, RawAll, RawOf;
    var raw := RawAll(r, items);
    ByStartOrders(ids);
    SortIsSortedPermutation(raw, ByStart(ids));
    forall i | 0 <= i < |Ordered(r, items, ids)| ensures Ordered(r, items, ids)[i].left >= 0.0 && Ordered(r, items, ids)[i].width >= 0.0 {
      assert Ordered(r, items, ids)[i] in raw;
      RawIsPositive(r, items, Ordered(r, items, ids)[i]);
    }
  }

  lemma Chained(ids: (string, string) -> bool, a: string, b: string, c: string)
    requires TotalPreorder(ids) && ids(a, b) && ids(b, c)
    ensures ids(a, c)
  {}

  lemma ByStartOrders(ids: (string, string) -> bool)
    requires TotalPreorder(ids)
    ensures TotalPreorder(ByStart(ids))
  {
    var le := ByStart(ids);
    forall a, b ensures le(a, b) || le(b, a) { assert ids(a.id, b.id) || ids(b.id, a.id); }
    forall a, b, c | le(a, b) && le(b, c) ensures le(a, c) {
      if a.start == c.start { Chained(ids, a.id, b.id, c.id); }
    }
  }

  lemma {:induction false} RawIsPositive(r: Range, items: seq<Item>, raw: Raw)
    requires raw in RawAll(r, items)
    ensures raw.left >= 0.0 && raw.width >= 0.0
  {
    hide Span, Available;
    if raw in RawAll(r, items[1..]) { RawIsPositive(r, items[1..], raw); }
  }

  // ----- widths and gaps before anything is shrunk

  function Sum(s: seq<real>): real {
    if s == [] then 0.0 else Sum(s[..|s| - 1]) + s[|s| - 1]
  }

  function Widened(ordered: seq<Raw>, minimum: real): (w: seq<real>)
    ensures |w| == |ordered| && forall i :: 0 <= i < |w| ==> w[i] == Max(minimum, ordered[i].width)
  {
    seq(|ordered|, i requires 0 <= i < |ordered| => Max(minimum, ordered[i].width))
  }

  /** How far the raw blocks reach. */
  function Edge(ordered: seq<Raw>): real {
    if ordered == [] then 0.0
    else Max(Edge(ordered[..|ordered| - 1]), ordered[|ordered| - 1].left + ordered[|ordered| - 1].width)
  }

  function Gap(ordered: seq<Raw>, i: nat): real
    requires i < |ordered|
  {
    Max(0.0, ordered[i].left - Edge(ordered[..i]))
  }

  function Gaps(ordered: seq<Raw>): (g: seq<real>)
    ensures |g| == |ordered| && forall i :: 0 <= i < |g| ==> g[i] == Gap(ordered, i)
  {
    seq(|ordered|, i requires 0 <= i < |ordered| => Gap(ordered, i))
  }

  // ----- shrinking

  function Excess(widths: seq<real>, minimum: real): (e: seq<real>)
    ensures |e| == |widths| && forall i :: 0 <= i < |e| ==> e[i] == Max(0.0, widths[i] - minimum)
  {
    seq(|widths|, i requires 0 <= i < |widths| => Max(0.0, widths[i] - minimum))
  }

  /** Each block keeps the floor and a share of what is left, in proportion to its excess. */
  function Shrunk(widths: seq<real>, minimum: real, available: real): (w: seq<real>)
    ensures |w| == |widths|
  {
    var spare, total := Spare(minimum, |widths|, available), Sum(Excess(widths, minimum));
    seq(|widths|, i requires 0 <= i < |widths| => Portion(minimum, spare, Max(0.0, widths[i] - minimum), total))
  }

  /** What is left of the track once every block has its floor. */
  function Spare(minimum: real, count: nat, available: real): real {
    Max(0.0, available - minimum * count as real)
  }

  function Portion(minimum: real, spare: real, excess: real, total: real): real {
    minimum + if total == 0.0 then 0.0 else spare * excess / total
  }

  function Scaled(gaps: seq<real>, scale: real): (g: seq<real>)
    ensures |g| == |gaps| && forall i :: 0 <= i < |g| ==> g[i] == Times(gaps[i], scale)
  {
    seq(|gaps|, i requires 0 <= i < |gaps| => Times(gaps[i], scale))
  }

  function Times(gap: real, scale: real): real {
    gap * scale
  }

  function Zeros(n: nat): (z: seq<real>)
    ensures |z| == n && forall i :: 0 <= i < n ==> z[i] == 0.0
  {
    seq(n, i => 0.0)
  }

  predicate TooWide(widths: seq<real>, available: real) {
    Sum(widths) > available
  }

  predicate TooSpread(widths: seq<real>, gaps: seq<real>, available: real) {
    !TooWide(widths, available) && Sum(widths) + Sum(gaps) > available && Sum(gaps) > 0.0
  }

  function FinalWidths(widths: seq<real>, minimum: real, available: real): (w: seq<real>)
    ensures |w| == |widths|
  {
    if TooWide(widths, available) then Shrunk(widths, minimum, available) else widths
  }

  function FinalGaps(widths: seq<real>, gaps: seq<real>, available: real): (g: seq<real>)
    ensures |g| == |gaps|
  {
    if TooWide(widths, available) then Zeros(|gaps|)
    else if TooSpread(widths, gaps, available) then Scaled(gaps, (available - Sum(widths)) / Sum(gaps))
    else gaps
  }

  // ----- blocks

  /** Where block i starts: the zone, every gap up to it and every width before it. */
  function LeftOf(zone: real, gaps: seq<real>, widths: seq<real>, i: nat): real
    requires i < |gaps| == |widths|
  {
    zone + Sum(gaps[..i + 1]) + Sum(widths[..i])
  }

  function Blocks(ordered: seq<Raw>, zone: real, gaps: seq<real>, widths: seq<real>): (b: seq<Block>)
    requires |gaps| == |widths| == |ordered|
    ensures |b| == |ordered| && forall i :: 0 <= i < |b| ==> b[i] == Block(ordered[i].id, LeftOf(zone, gaps, widths, i), widths[i])
  {
    seq(|ordered|, i requires 0 <= i < |ordered| => Block(ordered[i].id, LeftOf(zone, gaps, widths, i), widths[i]))
  }

  function Layout(ordered: seq<Raw>, r: Range): (b: seq<Block>)
    ensures |b| == |ordered|
  {
    var widths, gaps := Widened(ordered, Minimum(r)), Gaps(ordered);
    Blocks(ordered, Zone(r), FinalGaps(widths, gaps, Available(r)), FinalWidths(widths, Minimum(r), Available(r)))
  }

  // ----- sums

  lemma SumStep(s: seq<real>, i: nat)
    requires i < |s|
    ensures Sum(s[..i + 1]) == Sum(s[..i]) + s[i]
  {
    assert s[..i + 1][..i] == s[..i];
  }

  lemma {:induction false} SumIsPositive(s: seq<real>)
    requires forall i :: 0 <= i < |s| ==> s[i] >= 0.0
    ensures Sum(s) >= 0.0
  {
    if s != [] { SumIsPositive(s[..|s| - 1]); }
  }

  lemma {:induction false} SumAtLeast(s: seq<real>, least: real)
    requires forall i :: 0 <= i < |s| ==> s[i] >= least
    ensures Sum(s) >= least * |s| as real
  {
    if s != [] {
      SumAtLeast(s[..|s| - 1], least);
      OneMore(least, |s| - 1);
    }
  }

  lemma OneMore(least: real, n: nat)
    ensures least * (n + 1) as real == least * n as real + least
  {}

  lemma {:induction false} SumAffine(s: seq<real>, t: seq<real>, base: real, scale: real)
    requires |s| == |t| && forall i :: 0 <= i < |s| ==> t[i] == base + s[i] * scale
    ensures Sum(t) == base * |s| as real + Sum(s) * scale
  {
    if s != [] {
      SumAffine(s[..|s| - 1], t[..|t| - 1], base, scale);
      OneMore(base, |s| - 1);
      Distributes(Sum(s[..|s| - 1]), s[|s| - 1], scale);
    }
  }

  lemma Distributes(a: real, b: real, c: real)
    ensures (a + b) * c == a * c + b * c
  {}

  lemma {:induction false} SumZeros(n: nat)
    ensures Sum(Zeros(n)) == 0.0
  {
    if n > 0 {
      assert Zeros(n)[..n - 1] == Zeros(n - 1);
      SumZeros(n - 1);
    }
  }

  lemma {:induction false} SumPrefix(s: seq<real>, i: nat, j: nat)
    requires i <= j <= |s| && forall k :: 0 <= k < |s| ==> s[k] >= 0.0
    ensures Sum(s[..i]) <= Sum(s[..j])
    decreases j
  {
    if i < j {
      SumPrefix(s, i, j - 1);
      SumStep(s, j - 1);
    }
  }

  // ----- what the final widths and gaps are

  lemma GapsArePositive(ordered: seq<Raw>)
    ensures forall i :: 0 <= i < |ordered| ==> Gaps(ordered)[i] >= 0.0
  {}

  lemma FinalWidthsAtLeast(widths: seq<real>, minimum: real, available: real)
    requires minimum > 0.0 && forall i :: 0 <= i < |widths| ==> widths[i] >= minimum
    ensures forall i :: 0 <= i < |widths| ==> FinalWidths(widths, minimum, available)[i] >= minimum
  {
    if TooWide(widths, available) {
      var total, spare := Sum(Excess(widths, minimum)), Max(0.0, available - minimum * |widths| as real);
      SumIsPositive(Excess(widths, minimum));
      forall i | 0 <= i < |widths| ensures Shrunk(widths, minimum, available)[i] >= minimum {
        if total != 0.0 {
          ProductIsPositive(spare, Max(0.0, widths[i] - minimum));
          Quotient(spare * Max(0.0, widths[i] - minimum), total);
        }
      }
    }
  }

  lemma FinalGapsArePositive(widths: seq<real>, gaps: seq<real>, available: real)
    requires forall i :: 0 <= i < |gaps| ==> gaps[i] >= 0.0
    ensures forall i :: 0 <= i < |gaps| ==> FinalGaps(widths, gaps, available)[i] >= 0.0
  {
    if TooSpread(widths, gaps, available) {
      var scale := (available - Sum(widths)) / Sum(gaps);
      Quotient(available - Sum(widths), Sum(gaps));
      forall i | 0 <= i < |gaps| ensures gaps[i] * scale >= 0.0 { ProductIsPositive(gaps[i], scale); }
    }
  }

  /** The excesses sum to the widths less their floors. */
  lemma ExcessSum(widths: seq<real>, minimum: real)
    requires forall i :: 0 <= i < |widths| ==> widths[i] >= minimum
    ensures Sum(widths) == minimum * |widths| as real + Sum(Excess(widths, minimum))
  {
    hide *;
    ExcessIs(widths, minimum);
    SumAffine(Excess(widths, minimum), widths, minimum, 1.0);
  }

  lemma ExcessIs(widths: seq<real>, minimum: real)
    requires forall i :: 0 <= i < |widths| ==> widths[i] >= minimum
    ensures forall i :: 0 <= i < |widths| ==> Excess(widths, minimum)[i] == widths[i] - minimum && widths[i] == minimum + Excess(widths, minimum)[i] * 1.0
  {}

  /** Shrunk widths fill the track exactly, once the floors fit it. */
  lemma ShrunkFills(widths: seq<real>, minimum: real, available: real)
    requires (forall i :: 0 <= i < |widths| ==> widths[i] >= minimum) && TooWide(widths, available)
    requires minimum * |widths| as real <= available
    ensures Sum(Shrunk(widths, minimum, available)) == available
  {
    hide *;
    var excess := Excess(widths, minimum);
    var total, floors := Sum(excess), minimum * |widths| as real;
    TooWideIs(widths, available);
    ExcessSum(widths, minimum);
    assert total > 0.0;
    var w, share := Shrunk(widths, minimum, available), (available - floors) / total;
    forall i | 0 <= i < |widths| ensures w[i] == minimum + excess[i] * share {
      ShrunkIs(widths, minimum, available, total, floors, share, i);
    }
    SumAffine(excess, w, minimum, share);
    Quotient2(available - floors, total);
    Swap(total, share);
  }

  lemma TooWideIs(widths: seq<real>, available: real)
    ensures TooWide(widths, available) <==> Sum(widths) > available
  {}

  lemma Swap(a: real, b: real)
    ensures a * b == b * a
  {}

  lemma ShrunkIs(widths: seq<real>, minimum: real, available: real, total: real, floors: real, share: real, i: nat)
    requires i < |widths| && floors == minimum * |widths| as real && floors <= available
    requires total == Sum(Excess(widths, minimum)) && total > 0.0 && share == (available - floors) / total
    ensures Shrunk(widths, minimum, available)[i] == minimum + Excess(widths, minimum)[i] * share
  {
    hide Sum;
    Share(available - floors, Excess(widths, minimum)[i], total);
  }

  lemma Share(spare: real, e: real, total: real)
    requires total > 0.0
    ensures spare * e / total == e * (spare / total)
  {
    assert spare / total * total == spare;
    Divided(spare * e, e * (spare / total), total);
  }

  lemma Quotient2(a: real, b: real)
    requires b > 0.0
    ensures b * (a / b) == a
  {}

  lemma FinalTotal(widths: seq<real>, gaps: seq<real>, minimum: real, available: real)
    requires |widths| == |gaps| && minimum > 0.0 && (forall i :: 0 <= i < |widths| ==> widths[i] >= minimum)
    requires (forall i :: 0 <= i < |gaps| ==> gaps[i] >= 0.0) && minimum * |widths| as real <= available
    ensures Sum(FinalWidths(widths, minimum, available)) + Sum(FinalGaps(widths, gaps, available)) <= available
  {
    hide Sum, Shrunk, Scaled, Zeros;
    SumIsPositive(gaps);
    if TooWide(widths, available) {
      ShrunkFills(widths, minimum, available);
      SumZeros(|gaps|);
    } else if TooSpread(widths, gaps, available) {
      ScaledFills(gaps, available - Sum(widths));
    }
  }

  lemma ScaledFills(gaps: seq<real>, room: real)
    requires Sum(gaps) > 0.0
    ensures Sum(Scaled(gaps, room / Sum(gaps))) == room
  {
    hide Sum;
    var scale := room / Sum(gaps);
    SumAffine(gaps, Scaled(gaps, scale), 0.0, scale);
    Quotient2(room, Sum(gaps));
  }

  // ----- the guarantees

  ghost predicate Narrowest(r: Range, b: seq<Block>) {
    forall i :: 0 <= i < |b| ==> b[i].width >= Minimum(r)
  }

  ghost predicate InOrder(b: seq<Block>) {
    forall i, j :: 0 <= i < j < |b| ==> b[i].left + b[i].width <= b[j].left
  }

  lemma WidthsAtLeast(ordered: seq<Raw>, r: Range)
    ensures Minimum(r) > 0.0 && (forall i :: 0 <= i < |ordered| ==> Widened(ordered, Minimum(r))[i] >= Minimum(r))
    ensures forall i :: 0 <= i < |ordered| ==> Wide(ordered, r)[i] >= Minimum(r)
    ensures forall i :: 0 <= i < |ordered| ==> Apart(ordered, r)[i] >= 0.0
  {
    hide Sum, Shrunk, FinalWidths, FinalGaps, Gap;
    GapsArePositive(ordered);
    FinalWidthsAtLeast(Widened(ordered, Minimum(r)), Minimum(r), Available(r));
    FinalGapsArePositive(Widened(ordered, Minimum(r)), Gaps(ordered), Available(r));
  }

  /** Blocks keep their start order, never overlap, and none is narrower than the minimum. */
  lemma BlocksNeverOverlap(ordered: seq<Raw>, r: Range)
    ensures InOrder(Layout(ordered, r)) && Narrowest(r, Layout(ordered, r))
    ensures forall i :: 0 <= i < |ordered| ==> Layout(ordered, r)[i].id == ordered[i].id
  {
    hide *;
    var b, w, g := Layout(ordered, r), Wide(ordered, r), Apart(ordered, r);
    WidthsAtLeast(ordered, r);
    LayoutIs(ordered, r);
    forall i, j | 0 <= i < j < |b| ensures b[i].left + b[i].width <= b[j].left {
      LaterStarts(Zone(r), g, w, i, j);
    }
    InOrderIf(b);
    NarrowestIf(r, b);
  }

  function Wide(ordered: seq<Raw>, r: Range): (w: seq<real>)
    ensures |w| == |ordered|
  {
    FinalWidths(Widened(ordered, Minimum(r)), Minimum(r), Available(r))
  }

  function Apart(ordered: seq<Raw>, r: Range): (g: seq<real>)
    ensures |g| == |ordered|
  {
    FinalGaps(Widened(ordered, Minimum(r)), Gaps(ordered), Available(r))
  }

  lemma LayoutIs(ordered: seq<Raw>, r: Range)
    ensures Layout(ordered, r) == Blocks(ordered, Zone(r), Apart(ordered, r), Wide(ordered, r))
  {
    hide Blocks, FinalWidths, FinalGaps, Widened, Gaps;
  }

  lemma InOrderIf(b: seq<Block>)
    requires forall i, j :: 0 <= i < j < |b| ==> b[i].left + b[i].width <= b[j].left
    ensures InOrder(b)
  {}

  lemma NarrowestIf(r: Range, b: seq<Block>)
    requires forall i :: 0 <= i < |b| ==> b[i].width >= Minimum(r)
    ensures Narrowest(r, b)
  {}

  lemma LaterStarts(zone: real, g: seq<real>, w: seq<real>, i: nat, j: nat)
    requires i < j < |g| == |w| && (forall k :: 0 <= k < |w| ==> w[k] >= 0.0) && forall k :: 0 <= k < |g| ==> g[k] >= 0.0
    ensures LeftOf(zone, g, w, i) + w[i] <= LeftOf(zone, g, w, j)
  {
    hide Sum;
    SumStep(w, i);
    SumPrefix(w, i + 1, j);
    SumPrefix(g, i + 1, j + 1);
  }

  function LastEdge(b: seq<Block>): real
    requires b != []
  {
    b[|b| - 1].left + b[|b| - 1].width
  }

  lemma LastEdgeIs(ordered: seq<Raw>, zone: real, gaps: seq<real>, widths: seq<real>)
    requires |gaps| == |widths| == |ordered| > 0
    ensures LastEdge(Blocks(ordered, zone, gaps, widths)) == zone + Sum(gaps) + Sum(widths)
  {
    var n := |ordered|;
    SumStep(widths, n - 1);
    assert widths[..n] == widths && gaps[..n] == gaps;
  }

  /** The last block ends inside the track exactly when the minimum widths fit it. */
  lemma FitsTrackIff(ordered: seq<Raw>, r: Range)
    requires ordered != []
    ensures LastEdge(Layout(ordered, r)) <= 99.6 <==> Minimum(r) * |ordered| as real <= Available(r)
  {
    hide *;
    var w, g := Wide(ordered, r), Apart(ordered, r);
    WidthsAtLeast(ordered, r);
    LayoutIs(ordered, r);
    LastEdgeIs(ordered, Zone(r), g, w);
    SumAtLeast(w, Minimum(r));
    SumIsPositive(g);
    AvailableIs(r);
    if Minimum(r) * |ordered| as real <= Available(r) { WideFits(ordered, r); }
  }

  lemma AvailableIs(r: Range)
    ensures Zone(r) + Available(r) == 99.6
  {}

  lemma WideFits(ordered: seq<Raw>, r: Range)
    requires Minimum(r) * |ordered| as real <= Available(r)
    ensures Sum(Wide(ordered, r)) + Sum(Apart(ordered, r)) <= Available(r)
  {
    hide Sum, Shrunk, FinalWidths, FinalGaps, Gap, Minimum, Available;
    WidthsAtLeast(ordered, r);
    GapsArePositive(ordered);
    FinalTotal(Widened(ordered, Minimum(r)), Gaps(ordered), Minimum(r), Available(r));
  }

  ghost predicate RawDisjoint(ordered: seq<Raw>) {
    forall i :: 0 < i < |ordered| ==> ordered[i - 1].left + ordered[i - 1].width <= ordered[i].left
  }

  lemma {:induction false} RawEdge(ordered: seq<Raw>, i: nat)
    requires RawDisjoint(ordered) && i <= |ordered| && forall k :: 0 <= k < |ordered| ==> ordered[k].left >= 0.0 && ordered[k].width >= 0.0
    ensures Edge(ordered[..i]) == if i == 0 then 0.0 else ordered[i - 1].left + ordered[i - 1].width
    decreases i
  {
    if i > 0 {
      assert ordered[..i][..i - 1] == ordered[..i - 1];
      RawEdge(ordered, i - 1);
    }
  }

  lemma {:induction false} RawSums(ordered: seq<Raw>, minimum: real, i: nat)
    requires RawDisjoint(ordered) && i < |ordered|
    requires forall k :: 0 <= k < |ordered| ==> ordered[k].left >= 0.0 && ordered[k].width >= 0.0 && ordered[k].width >= minimum
    ensures Sum(Gaps(ordered)[..i + 1]) + Sum(Widened(ordered, minimum)[..i]) == ordered[i].left
    decreases i
  {
    SumStep(Gaps(ordered), i);
    RawEdge(ordered, i);
    if i > 0 {
      RawSums(ordered, minimum, i - 1);
      SumStep(Widened(ordered, minimum), i - 1);
    } else {
      assert Gaps(ordered)[..0] == [] && Widened(ordered, minimum)[..0] == [];
    }
  }

  /** Where nothing needs widening or shrinking and the raw blocks are disjoint, every block sits exactly where it was. */
  lemma UntouchedIsExact(ordered: seq<Raw>, r: Range)
    requires RawDisjoint(ordered) && forall k :: 0 <= k < |ordered| ==> ordered[k].left >= 0.0 && ordered[k].width >= Minimum(r)
    requires ordered != [] ==> ordered[|ordered| - 1].left + ordered[|ordered| - 1].width <= Available(r)
    ensures forall i :: 0 <= i < |ordered| ==> Layout(ordered, r)[i] == Block(ordered[i].id, Zone(r) + ordered[i].left, ordered[i].width)
  {
    hide *;
    if ordered != [] { NothingMoves(ordered, r); }
    forall i | 0 <= i < |ordered| ensures Layout(ordered, r)[i] == Block(ordered[i].id, Zone(r) + ordered[i].left, ordered[i].width) {
      StaysAt(ordered, r, i);
    }
  }

  /** Widths and gaps reach exactly the last raw edge, so neither is too large. */
  lemma NothingMoves(ordered: seq<Raw>, r: Range)
    requires ordered != [] && RawDisjoint(ordered) && forall k :: 0 <= k < |ordered| ==> ordered[k].left >= 0.0 && ordered[k].width >= Minimum(r)
    requires ordered[|ordered| - 1].left + ordered[|ordered| - 1].width <= Available(r)
    ensures Wide(ordered, r) == Widened(ordered, Minimum(r)) && Apart(ordered, r) == Gaps(ordered)
  {
    hide Sum, Shrunk, Gap, Gaps, Available, Zone;
    var widths, gaps, n := Widened(ordered, Minimum(r)), Gaps(ordered), |ordered|;
    RawSums(ordered, Minimum(r), n - 1);
    SumStep(widths, n - 1);
    assert widths[..n] == widths && gaps[..n] == gaps;
    GapsArePositive(ordered);
    SumIsPositive(gaps);
  }

  lemma StaysAt(ordered: seq<Raw>, r: Range, i: nat)
    requires i < |ordered| && RawDisjoint(ordered) && forall k :: 0 <= k < |ordered| ==> ordered[k].left >= 0.0 && ordered[k].width >= Minimum(r)
    requires Wide(ordered, r) == Widened(ordered, Minimum(r)) && Apart(ordered, r) == Gaps(ordered)
    ensures Layout(ordered, r)[i] == Block(ordered[i].id, Zone(r) + ordered[i].left, ordered[i].width)
  {
    hide Sum, Wide, Apart, Layout, Gaps, Available, Zone;
    LayoutIs(ordered, r);
    RawSums(ordered, Minimum(r), i);
  }

  // ----- the loops, on arrays updated in place

  method SumOf(a: array<real>) returns (total: real)
    ensures total == Sum(a[..])
  {
    total := 0.0;
    for i := 0 to a.Length
      invariant total == Sum(a[..i])
    {
      SumStep(a[..], i);
      assert a[..][..i] == a[..i] && a[..][..i + 1] == a[..i + 1];
      total := total + a[i];
    }
    assert a[..a.Length] == a[..];
  }

  method RawGaps(ordered: seq<Raw>) returns (gaps: array<real>)
    ensures fresh(gaps) && gaps[..] == Gaps(ordered)
  {
    gaps := new real[|ordered|];
    var previousEdge := 0.0;
    for i := 0 to |ordered|
      invariant previousEdge == Edge(ordered[..i])
      invariant forall k :: 0 <= k < i ==> gaps[k] == Gap(ordered, k)
    {
      assert ordered[..i + 1][..i] == ordered[..i];
      gaps[i] := Max(0.0, ordered[i].left - previousEdge);
      previousEdge := Max(previousEdge, ordered[i].left + ordered[i].width);
    }
    assert ordered[..|ordered|] == ordered;
  }

  lemma ShrunkAt(widths: seq<real>, minimum: real, available: real, i: nat)
    requires i < |widths|
    ensures Shrunk(widths, minimum, available)[i]
      == Portion(minimum, Spare(minimum, |widths|, available), Excess(widths, minimum)[i], Sum(Excess(widths, minimum)))
  {
    hide Sum, Portion, Spare;
  }

  method ShrinkWidths(widths: array<real>, minimum: real, available: real)
    modifies widths
    ensures widths[..] == Shrunk(old(widths[..]), minimum, available)
  {
    hide *;
    ghost var before, goal := widths[..], Shrunk(widths[..], minimum, available);
    var spare := Spare(minimum, widths.Length, available);
    var excess := ExcessOf(widths, minimum);
    var total := SumOf(excess);
    for i := 0 to widths.Length
      invariant excess[..] == Excess(before, minimum)
      invariant forall k :: 0 <= k < i ==> widths[k] == goal[k]
      invariant forall k :: i <= k < widths.Length ==> widths[k] == before[k]
    {
      ShrunkAt(before, minimum, available, i);
      assert excess[i] == excess[..][i];
      widths[i] := Portion(minimum, spare, excess[i], total);
      assert widths[i] == goal[i];
    }
    assert widths[..] == goal;
  }

  method ExcessOf(widths: array<real>, minimum: real) returns (excess: array<real>)
    ensures fresh(excess) && excess[..] == Excess(widths[..], minimum)
  {
    excess := new real[widths.Length](i requires 0 <= i < widths.Length reads widths => Max(0.0, widths[i] - minimum));
  }

  method ScaleGaps(gaps: array<real>, scale: real)
    modifies gaps
    ensures gaps[..] == Scaled(old(gaps[..]), scale)
  {
    hide Times;
    ghost var before := gaps[..];
    for i := 0 to gaps.Length
      invariant forall k :: 0 <= k < i ==> gaps[k] == Times(before[k], scale)
      invariant forall k :: i <= k < gaps.Length ==> gaps[k] == before[k]
    {
      gaps[i] := Times(gaps[i], scale);
    }
    assert gaps[..] == Scaled(before, scale);
  }

  method ClearGaps(gaps: array<real>)
    modifies gaps
    ensures gaps[..] == Zeros(gaps.Length)
  {
    for i := 0 to gaps.Length
      invariant forall k :: 0 <= k < i ==> gaps[k] == 0.0
    {
      gaps[i] := 0.0;
    }
  }

  method PlaceBlocks(ordered: seq<Raw>, zone: real, gaps: array<real>, widths: array<real>) returns (blocks: seq<Block>)
    requires gaps.Length == widths.Length == |ordered|
    ensures blocks == Blocks(ordered, zone, gaps[..], widths[..])
  {
    blocks := [];
    var cursor := zone;
    ghost var g, w := gaps[..], widths[..];
    for i := 0 to |ordered|
      invariant |blocks| == i && cursor == zone + Sum(g[..i]) + Sum(w[..i])
      invariant forall k :: 0 <= k < i ==> blocks[k] == Blocks(ordered, zone, g, w)[k]
    {
      SumStep(g, i);
      SumStep(w, i);
      cursor := cursor + gaps[i];
      blocks := blocks + [Block(ordered[i].id, cursor, widths[i])];
      cursor := cursor + widths[i];
    }
  }

  /** layoutTimeline, one block an item in start order. */
  method LayoutTimeline(items: seq<Item>, r: Range, ids: (string, string) -> bool) returns (blocks: seq<Block>)
    ensures blocks == Layout(Ordered(r, items, ids), r)
  {
    hide Sum, Shrunk, Widened, Gaps, Blocks, Ordered, Available, Minimum, Zone;
    var ordered := Ordered(r, items, ids);
    var widths := new real[|ordered|](i requires 0 <= i < |ordered| => Max(Minimum(r), ordered[i].width));
    assert widths[..] == Widened(ordered, Minimum(r));
    var gaps := RawGaps(ordered);
    var widthTotal := SumOf(widths);
    var gapTotal := SumOf(gaps);
    if widthTotal > Available(r) {
      ShrinkWidths(widths, Minimum(r), Available(r));
      ClearGaps(gaps);
    } else if widthTotal + gapTotal > Available(r) && gapTotal > 0.0 {
      ScaleGaps(gaps, (Available(r) - widthTotal) / gapTotal);
    }
    blocks := PlaceBlocks(ordered, Zone(r), gaps, widths);
  }
}
