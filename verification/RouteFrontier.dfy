/** Routes compared: the Pareto line, the verdicts, and the recommendation that must agree with them. */
module RouteFrontier {
  import opened Text
  import opened Sorting
  import opened Order
  import opened Reals
  import opened Wilson

  const MIN_SETTLED := 5

  /** One route's evidence on the two axes: n is the interval's denominator, x the price or time, if any. */
  datatype Route = Route(key: string, n: nat, passes: nat, interval: Interval, x: Option<real>, prior: Option<real>)

  /** Observed exactly when something was counted, and then inside its interval. */
  ghost predicate Fair(r: Route) {
    && (r.interval.p.Some? <==> r.n > 0)
    && (r.interval.p.Some? ==> r.interval.lo <= r.interval.p.value <= r.interval.hi)
  }

  ghost predicate Fairly(routes: seq<Route>) {
    && (forall r :: r in routes ==> Fair(r))
    && (forall i, j :: 0 <= i < j < |routes| ==> routes[i].key != routes[j].key)
  }

  function Where(routes: seq<Route>, keep: Route -> bool): seq<Route> {
    if routes == [] then [] else (if keep(routes[0]) then [routes[0]] else []) + Where(routes[1..], keep)
  }

  lemma {:induction false} WhereHas(routes: seq<Route>, keep: Route -> bool)
    ensures forall x :: x in Where(routes, keep) <==> x in routes && keep(x)
  {
    if routes != [] {
      WhereHas(routes[1..], keep);
      assert routes == [routes[0]] + routes[1..];
    }
  }

  predicate Placed(r: Route) {
    r.x.Some? && r.interval.p.Some?
  }

  predicate Solid(r: Route) {
    Placed(r) && r.n >= MIN_SETTLED
  }

  /** At least as cheap and at least as good, and strictly better in one. */
  predicate Dominates(q: Route, p: Route)
    requires Placed(q) && Placed(p)
  {
    q.x.value <= p.x.value && q.interval.p.value >= p.interval.p.value && (q.x.value < p.x.value || q.interval.p.value > p.interval.p.value)
  }

  predicate Beaten(routes: seq<Route>, p: Route)
    requires Placed(p)
  {
    exists q :: q in routes && Solid(q) && Dominates(q, p)
  }

  predicate OnLine(routes: seq<Route>, p: Route) {
    Solid(p) && !Beaten(routes, p)
  }

  predicate Cheaper(a: Route, b: Route) {
    a.x.Some? && (b.x.None? || a.x.value < b.x.value)
  }

  /** Cheapest first, ties by key; a route with no price comes last. */
  predicate ByPrice(a: Route, b: Route) {
    Cheaper(a, b) || (!Cheaper(b, a) && AtMost(a.key, b.key))
  }

  /** The plotted points, cheapest first. */
  function Points(routes: seq<Route>): seq<Route> {
    Sort(Where(routes, Placed), ByPrice)
  }

  /** The Pareto line, cheapest first. */
  function Line(routes: seq<Route>): seq<Route> {
    Where(Points(routes), r => OnLine(routes, r))
  }

  // ----- orders

  lemma ByPriceIsTotal()
    ensures TotalPreorder(ByPrice)
  {
    forall a, b ensures ByPrice(a, b) || ByPrice(b, a) { Connected(a.key, b.key); }
    forall a, b, c | ByPrice(a, b) && ByPrice(b, c) ensures ByPrice(a, c) {
      if AtMost(a.key, b.key) && AtMost(b.key, c.key) && a.key != b.key && b.key != c.key { Transitive(a.key, b.key, c.key); }
    }
  }

  lemma DominatesIsStrict(a: Route, b: Route, c: Route)
    requires Placed(a) && Placed(b) && Placed(c)
    ensures !Dominates(a, a)
    ensures Dominates(a, b) && Dominates(b, c) ==> Dominates(a, c)
    ensures Dominates(a, b) ==> !Dominates(b, a)
  {}

  // ----- the line

  lemma PointsAre(routes: seq<Route>)
    ensures Sorted(Points(routes), ByPrice) && forall r :: r in Points(routes) <==> r in routes && Placed(r)
  {
    ByPriceIsTotal();
    WhereHas(routes, Placed);
    SortIsSortedPermutation(Where(routes, Placed), ByPrice);
  }

  lemma LineIs(routes: seq<Route>)
    ensures forall r :: r in Line(routes) <==> r in routes && OnLine(routes, r)
  {
    PointsAre(routes);
    WhereHas(Points(routes), r => OnLine(routes, r));
  }

  /** No point of the line beats another. */
  lemma LineIsAntichain(routes: seq<Route>, a: Route, b: Route)
    requires a in Line(routes) && b in Line(routes)
    ensures Placed(a) && Placed(b) && !Dominates(a, b)
  {
    LineIs(routes);
  }

  lemma {:induction false} WhereSorted(s: seq<Route>, le: (Route, Route) -> bool, keep: Route -> bool)
    requires Sorted(s, le)
    ensures Sorted(Where(s, keep), le)
  {
    if s != [] {
      var tail := s[1..];
      assert Sorted(tail, le) by { forall i, j | 0 <= i < j < |tail| ensures le(tail[i], tail[j]) { assert le(s[i + 1], s[j + 1]); } }
      WhereSorted(tail, le, keep);
      WhereHas(tail, keep);
      var rest := Where(tail, keep);
      forall j | 0 <= j < |rest| ensures le(s[0], rest[j]) {
        assert rest[j] in tail;
        var m :| 0 <= m < |tail| && tail[m] == rest[j];
        assert le(s[0], s[m + 1]);
      }
    }
  }

  /** Along the line, dearer means better, and the same price means the same rate. */
  lemma LineRises(routes: seq<Route>, i: nat, j: nat)
    requires i < j < |Line(routes)|
    ensures var a, b := Line(routes)[i], Line(routes)[j];
      && Placed(a) && Placed(b) && a.x.value <= b.x.value
      && (a.x.value < b.x.value ==> a.interval.p.value < b.interval.p.value)
      && (a.x.value == b.x.value ==> a.interval.p.value == b.interval.p.value)
  {
    var line := Line(routes);
    PointsAre(routes);
    WhereSorted(Points(routes), ByPrice, r => OnLine(routes, r));
    assert line[i] in line && line[j] in line;
    LineIsAntichain(routes, line[i], line[j]);
    LineIsAntichain(routes, line[j], line[i]);
    assert ByPrice(line[i], line[j]);
  }

  ghost function Beating(routes: seq<Route>, p: Route): set<Route>
    requires Placed(p)
  {
    set q | q in routes && Solid(q) && Dominates(q, p)
  }

  lemma SmallerSet(x: set<Route>, y: set<Route>)
    requires x < y
    ensures |x| < |y|
  {
    assert y == x + (y - x);
  }

  /** Every solid point off the line is beaten by a point on it. */
  lemma {:induction false} BeatenFromLine(routes: seq<Route>, p: Route)
    requires p in routes && Solid(p) && p !in Line(routes)
    ensures exists q :: q in Line(routes) && Placed(q) && Dominates(q, p)
    decreases |Beating(routes, p)|
  {
    LineIs(routes);
    var q :| q in routes && Solid(q) && Dominates(q, p);
    if q !in Line(routes) {
      forall r | r in Beating(routes, q) ensures r in Beating(routes, p) { DominatesIsStrict(r, q, p); }
      DominatesIsStrict(q, q, q);
      assert q in Beating(routes, p) && q !in Beating(routes, q);
      SmallerSet(Beating(routes, q), Beating(routes, p));
      BeatenFromLine(routes, q);
      var r :| r in Line(routes) && Placed(r) && Dominates(r, q);
      DominatesIsStrict(r, q, p);
      assert Dominates(r, p);
    } else {
      assert Dominates(q, p);
    }
  }

  // ----- hollow points never shape the line

  lemma WhereCons(x: Route, s: seq<Route>, keep: Route -> bool)
    ensures Where([x] + s, keep) == if keep(x) then [x] + Where(s, keep) else Where(s, keep)
  {
    assert ([x] + s)[1..] == s;
  }

  lemma InsertCons(x: Route, h: Route, t: seq<Route>, le: (Route, Route) -> bool)
    ensures Insert(x, [h] + t, le) == if le(x, h) then [x] + ([h] + t) else [h] + Insert(x, t, le)
  {
    assert ([h] + t)[1..] == t;
  }

  lemma SortedTail(s: seq<Route>, le: (Route, Route) -> bool)
    requires s != [] && Sorted(s, le)
    ensures Sorted(s[1..], le)
  {
    forall i, j | 0 <= i < j < |s[1..]| ensures le(s[1..][i], s[1..][j]) { assert le(s[i + 1], s[j + 1]); }
  }

  lemma {:induction false} WhereInsert(x: Route, s: seq<Route>, le: (Route, Route) -> bool, keep: Route -> bool)
    requires TotalPreorder(le) && Sorted(s, le)
    ensures Where(Insert(x, s, le), keep) == if keep(x) then Insert(x, Where(s, keep), le) else Where(s, keep)
  {
    hide TotalPreorder, Sorted;
    if s == [] {
      WhereCons(x, [], keep);
      assert [x] + [] == [x];
    } else {
      var h, t := s[0], s[1..];
      assert s == [h] + t;
      InsertCons(x, h, t, le);
      WhereCons(h, t, keep);
      if le(x, h) {
        WhereCons(x, s, keep);
        if keep(x) { LeastFirst(x, s, le, keep); }
      } else {
        SortedTail(s, le);
        WhereInsert(x, t, le, keep);
        WhereCons(h, Insert(x, t, le), keep);
        InsertCons(x, h, Where(t, keep), le);
      }
    }
  }

  /** What goes in before everything also goes in before everything that is kept. */
  lemma LeastFirst(x: Route, s: seq<Route>, le: (Route, Route) -> bool, keep: Route -> bool)
    requires TotalPreorder(le) && Sorted(s, le) && (s == [] || le(x, s[0]))
    ensures Insert(x, Where(s, keep), le) == [x] + Where(s, keep)
  {
    var kept := Where(s, keep);
    WhereHas(s, keep);
    if kept != [] {
      assert kept[0] in s;
      var m :| 0 <= m < |s| && s[m] == kept[0];
      assert m > 0 ==> le(s[0], s[m]);
    }
  }

  /** Sorting and then keeping is keeping and then sorting. */
  lemma {:induction false} WhereSort(s: seq<Route>, le: (Route, Route) -> bool, keep: Route -> bool)
    requires TotalPreorder(le)
    ensures Where(Sort(s, le), keep) == Sort(Where(s, keep), le)
  {
    hide TotalPreorder, Sorted, Insert;
    if s != [] {
      var h, t := s[0], s[1..];
      assert s == [h] + t;
      WhereSort(t, le, keep);
      SortIsSortedPermutation(t, le);
      WhereInsert(h, Sort(t, le), le, keep);
      WhereCons(h, t, keep);
      if keep(h) { SortCons(h, Where(t, keep), le); }
    }
  }

  lemma SortCons(h: Route, t: seq<Route>, le: (Route, Route) -> bool)
    ensures Sort([h] + t, le) == Insert(h, Sort(t, le), le)
  {
    assert ([h] + t)[1..] == t;
  }

  lemma {:induction false} WhereTwice(s: seq<Route>, first: Route -> bool, next: Route -> bool, both: Route -> bool)
    requires forall r :: r in s ==> both(r) == (first(r) && next(r))
    ensures Where(Where(s, first), next) == Where(s, both)
  {
    if s != [] {
      var h, t := s[0], s[1..];
      assert s == [h] + t && h in s;
      forall r | r in t ensures r in s {}
      WhereTwice(t, first, next, both);
      WhereCons(h, t, first);
      WhereCons(h, t, both);
      if first(h) { WhereCons(h, Where(t, first), next); }
    }
  }

  lemma LineOfSolid(routes: seq<Route>)
    ensures Line(routes) == Line(Where(routes, Solid))
  {
    var solid := Where(routes, Solid);
    WhereHas(routes, Solid);
    var on, on' := (r: Route) => OnLine(routes, r), (r: Route) => OnLine(solid, r);
    ByPriceIsTotal();
    WhereSort(Where(routes, Placed), ByPrice, on);
    WhereSort(Where(solid, Placed), ByPrice, on');
    WhereTwice(routes, Placed, on, on);
    WhereTwice(solid, Placed, on', on');
    forall r ensures on(r) == on'(r) {
      if Solid(r) { assert Beaten(routes, r) <==> Beaten(solid, r); }
    }
    WhereTwice(routes, Solid, on', on);
  }

  /** Adding or removing hollow points, or points that cannot be placed, never changes the line. */
  lemma HollowNeverShapesLine(routes: seq<Route>, others: seq<Route>)
    requires Where(routes, Solid) == Where(others, Solid)
    ensures Line(routes) == Line(others)
  {
    LineOfSolid(routes);
    LineOfSolid(others);
  }

  // ----- verdicts

  /** Highest rate first, then the cheaper, then the key. */
  predicate ByRate(a: Route, b: Route) {
    var p, q := if a.interval.p.Some? then a.interval.p.value else -1.0, if b.interval.p.Some? then b.interval.p.value else -1.0;
    p > q || (p == q && ByPrice(a, b))
  }

  lemma ByRateIsTotal()
    ensures TotalPreorder(ByRate)
  {
    ByPriceIsTotal();
  }

  /** bestOf: the first of the eligible, highest rate first. */
  function Best(eligible: seq<Route>): (r: Route)
    requires eligible != []
  {
    SortKeeps(eligible, ByRate);
    Sort(eligible, ByRate)[0]
  }

  lemma {:induction false} SortKeeps(s: seq<Route>, le: (Route, Route) -> bool)
    ensures |Sort(s, le)| == |s| && forall x :: x in Sort(s, le) <==> x in s
  {
    if s != [] {
      SortKeeps(s[1..], le);
      InsertKeeps(s[0], Sort(s[1..], le), le);
      assert s == [s[0]] + s[1..];
      var sorted := Insert(s[0], Sort(s[1..], le), le);
      forall x ensures x in sorted <==> x in s {
        assert x in sorted <==> x in multiset(sorted);
        assert x in Sort(s[1..], le) <==> x in multiset(Sort(s[1..], le));
      }
    }
  }

  lemma FirstOf(s: seq<Route>, le: (Route, Route) -> bool)
    requires TotalPreorder(le) && s != []
    ensures Sort(s, le) != [] && Sort(s, le)[0] in s && forall x :: x in s ==> le(Sort(s, le)[0], x)
  {
    SortKeeps(s, le);
    SortIsSortedPermutation(s, le);
    forall x | x in s ensures le(Sort(s, le)[0], x) {
      var m :| 0 <= m < |Sort(s, le)| && Sort(s, le)[m] == x;
    }
  }

  datatype Tag = Insufficient | Underpowered | Overkill | OnFrontier

  predicate Halves(other: Route, point: Route)
    requires Placed(other) && Placed(point)
  {
    other != point && other.x.value * 1.5 <= point.x.value && Overlaps(other.interval, point.interval)
  }

  /** The verdict on one plotted point. */
  function Verdict(routes: seq<Route>, point: Route): Tag
    requires Placed(point)
  {
    var eligible := Where(Points(routes), Solid);
    if !Solid(point) then Insufficient
    else if eligible != [] && Best(eligible) != point && point.interval.hi < Best(eligible).interval.lo then Underpowered
    else if exists other :: other in eligible && Placed(other) && Halves(other, point) then Overkill
    else OnFrontier
  }

  // ----- the recommendation

  predicate Eligible(r: Route) {
    r.n >= MIN_SETTLED
  }

  predicate ByCost(a: Route, b: Route) {
    Cheaper(a, b) || (!Cheaper(b, a) && ByRateThenKey(a, b))
  }

  predicate ByRateThenKey(a: Route, b: Route) {
    var p, q := if a.interval.p.Some? then a.interval.p.value else -1.0, if b.interval.p.Some? then b.interval.p.value else -1.0;
    p > q || (p == q && AtMost(a.key, b.key))
  }

  lemma ByCostIsTotal()
    ensures TotalPreorder(ByCost)
  {
    forall a, b ensures ByCost(a, b) || ByCost(b, a) { Connected(a.key, b.key); }
    forall a, b, c | ByCost(a, b) && ByCost(b, c) ensures ByCost(a, c) {
      if AtMost(a.key, b.key) && AtMost(b.key, c.key) && a.key != b.key && b.key != c.key { Transitive(a.key, b.key, c.key); }
    }
  }

  function Within(routes: seq<Route>): seq<Route>
    requires Where(routes, Eligible) != []
  {
    var best := Best(Where(routes, Eligible));
    Where(Where(routes, Eligible), (r: Route) => Overlaps(r.interval, best.interval))
  }

  /** The local branch: the cheapest eligible route whose interval overlaps the best route's. */
  function Choice(routes: seq<Route>): Option<Route>
    requires Where(routes, Eligible) != []
  {
    var ranked := Sort(Within(routes), ByCost);
    if ranked == [] then None else Some(ranked[0])
  }

  lemma BestIs(routes: seq<Route>)
    requires Fairly(routes) && Where(routes, Eligible) != []
    ensures var best := Best(Where(routes, Eligible));
      && best in routes && Eligible(best) && best in Within(routes)
      && forall r :: r in routes && Eligible(r) ==> ByRate(best, r)
  {
    ByRateIsTotal();
    WhereHas(routes, Eligible);
    FirstOf(Where(routes, Eligible), ByRate);
    WithinHas(routes);
  }

  lemma WithinHas(routes: seq<Route>)
    requires Where(routes, Eligible) != []
    ensures forall r :: r in Within(routes) <==>
      r in routes && Eligible(r) && Overlaps(r.interval, Best(Where(routes, Eligible)).interval)
  {
    WhereHas(routes, Eligible);
    var best := Best(Where(routes, Eligible));
    WhereHas(Where(routes, Eligible), (r: Route) => Overlaps(r.interval, best.interval));
  }

  /** The choice overlaps the best route, costs no more than any route that does, and so no more than the best. */
  lemma ChoiceIsCheapestOverlapping(routes: seq<Route>)
    requires Fairly(routes) && Where(routes, Eligible) != []
    ensures Choice(routes).Some?
    ensures var c, best := Choice(routes).value, Best(Where(routes, Eligible));
      && c in routes && Eligible(c) && Overlaps(c.interval, best.interval) && !Cheaper(best, c)
      && forall r :: r in routes && Eligible(r) && Overlaps(r.interval, best.interval) ==> !Cheaper(r, c)
  {
    BestIs(routes);
    ByCostIsTotal();
    WithinHas(routes);
    FirstOf(Within(routes), ByCost);
    forall r | r in routes && Eligible(r) && Overlaps(r.interval, Best(Where(routes, Eligible)).interval) ensures !Cheaper(r, Choice(routes).value) {
      assert r in Within(routes);
    }
  }

  lemma SameKeySame(routes: seq<Route>, a: Route, b: Route)
    requires Fairly(routes) && a in routes && b in routes && a.key == b.key
    ensures a == b
  {
    var i :| 0 <= i < |routes| && routes[i] == a;
    var j :| 0 <= j < |routes| && routes[j] == b;
  }

  lemma OneBest(routes: seq<Route>, a: Route, b: Route)
    requires Fairly(routes) && a in routes && b in routes && ByRate(a, b) && ByRate(b, a)
    ensures a == b
  {
    if a.key != b.key {
      if Less(a.key, b.key) { Asymmetric(a.key, b.key); } else if Less(b.key, a.key) { Asymmetric(b.key, a.key); }
    }
    SameKeySame(routes, a, b);
  }

  /** The verdicts and the recommendation mean the same route by the best one exactly when the best eligible route is priced. */
  lemma SameBestIff(routes: seq<Route>)
    requires Fairly(routes) && Where(routes, Eligible) != []
    ensures (Where(Points(routes), Solid) != [] && Best(Where(Points(routes), Solid)) == Best(Where(routes, Eligible)))
            <==> Best(Where(routes, Eligible)).x.Some?
  {
    hide Best, Where, Points, ByRate;
    PointsAre(routes);
    WhereHas(Points(routes), Solid);
    WhereHas(routes, Eligible);
    BestIs(routes);
    var best, solid := Best(Where(routes, Eligible)), Where(Points(routes), Solid);
    assert Fair(best) && (best.x.Some? ==> best in solid);
    if solid != [] {
      BestOf(solid);
      assert Solid(Best(solid));
      if best.x.Some? { OneBest(routes, best, Best(solid)); }
    }
  }

  lemma BestOf(eligible: seq<Route>)
    requires eligible != []
    ensures Best(eligible) in eligible && forall r :: r in eligible ==> ByRate(Best(eligible), r)
  {
    ByRateIsTotal();
    FirstOf(eligible, ByRate);
  }

  /** A recommended route is never one the verdicts call insufficient or underpowered, once the best eligible route is priced. */
  lemma ChoiceIsNeverUnderpowered(routes: seq<Route>)
    requires Fairly(routes) && Where(routes, Eligible) != [] && Best(Where(routes, Eligible)).x.Some?
    ensures Choice(routes).Some? && Placed(Choice(routes).value)
    ensures Verdict(routes, Choice(routes).value) !in {Insufficient, Underpowered}
  {
    ChoiceIsCheapestOverlapping(routes);
    SameBestIff(routes);
    assert Fair(Choice(routes).value);
  }

  // ----- the prior-only branch

  const PRIOR_STRENGTH := 4.0

  function PriorScore(r: Route): Option<real> {
    if r.prior.None? then None else Some((r.passes as real + PRIOR_STRENGTH * r.prior.value) / (r.n as real + PRIOR_STRENGTH))
  }

  /** Each score with a prior lies between that prior and the observed rate; with no rows it is the prior. */
  lemma ScoreBetween(r: Route)
    requires r.prior.Some? && r.passes <= r.n
    ensures r.n == 0 ==> PriorScore(r).value == r.prior.value
    ensures r.n > 0 ==> var p, q := Rate(r.passes, r.n), r.prior.value; Min(p, q) <= PriorScore(r).value <= Max(p, q)
  {
    if r.n == 0 {
      Divided(PRIOR_STRENGTH * r.prior.value, r.prior.value, PRIOR_STRENGTH);
    } else {
      RateTimes(r.passes, r.n);
      Mixed(Rate(r.passes, r.n), r.prior.value, r.n as real, PRIOR_STRENGTH, r.passes as real);
    }
  }

  lemma RateTimes(k: nat, n: nat)
    requires 0 < n && k <= n
    ensures Rate(k, n) * n as real == k as real
  {
    RateIsFraction(k, n);
  }

  lemma Mixed(p: real, q: real, n: real, m: real, k: real)
    requires n > 0.0 && m > 0.0 && p * n == k
    ensures Min(p, q) <= (k + m * q) / (n + m) <= Max(p, q)
  {
    var lo, hi := Min(p, q), Max(p, q);
    ProductIsPositive(p - lo, n);
    ProductIsPositive(q - lo, m);
    ProductIsPositive(hi - p, n);
    ProductIsPositive(hi - q, m);
    Below(k + m * q, lo, n + m);
    Below(k + m * q, hi, n + m);
  }
}
