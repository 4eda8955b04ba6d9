/** What the four verdicts and the recommended route mean, on counts, rates, intervals and prices alone. */
module RouteVerdicts {
  import opened Text
  import opened Sorting
  import opened Order
  import opened Reals
  import opened Wilson
  import opened RouteFrontier

  /** Some rate lies in both intervals. */
  ghost predicate Share(a: Interval, b: Interval) {
    exists q: real {:trigger Inside(q, a)} :: Inside(q, a) && Inside(q, b)
  }

  ghost predicate Inside(q: real, a: Interval) {
    a.lo <= q <= a.hi
  }

  /** At least five settled rows. */
  ghost predicate Settled(routes: seq<Route>, r: Route) {
    r in routes && r.n >= 5 && r.interval.p.Some?
  }

  /** Settled and priced: what the line and the verdicts are drawn from. */
  ghost predicate Plotted(routes: seq<Route>, r: Route) {
    Settled(routes, r) && r.x.Some?
  }

  /** A known price is less than a greater one, and than none. */
  ghost predicate CostsLess(a: Route, b: Route) {
    a.x.Some? && (b.x.Some? ==> a.x.value < b.x.value)
  }

  /** Better rate; of equal rates the lower price; of equal prices the earlier key. */
  ghost predicate Leads(a: Route, b: Route)
    requires a.interval.p.Some? && b.interval.p.Some?
  {
    var p, q := a.interval.p.value, b.interval.p.value;
    p > q || (p == q && (CostsLess(a, b) || (a.x == b.x && (a.key == b.key || Less(a.key, b.key)))))
  }

  /** The best plotted route, of all that are plotted. */
  ghost predicate TopPlotted(routes: seq<Route>, best: Route) {
    Plotted(routes, best) && forall r :: Plotted(routes, r) ==> Leads(best, r)
  }

  /** The best settled route, priced or not. */
  ghost predicate TopSettled(routes: seq<Route>, best: Route) {
    Settled(routes, best) && forall r :: Settled(routes, r) ==> Leads(best, r)
  }

  // ----- the model's words and these

  lemma ShareIff(a: Interval, b: Interval)
    requires a.lo <= a.hi && b.lo <= b.hi
    ensures Overlaps(a, b) <==> Share(a, b)
  {
    if Overlaps(a, b) { assert Inside(Max(a.lo, b.lo), a) && Inside(Max(a.lo, b.lo), b); }
  }

  lemma LeadsIff(a: Route, b: Route)
    requires a.interval.p.Some? && b.interval.p.Some?
    ensures ByRate(a, b) <==> Leads(a, b)
  {
    Irreflexive(a.key);
  }

  lemma PlottedIff(routes: seq<Route>)
    ensures forall r :: r in Where(Points(routes), Solid) <==> Plotted(routes, r)
  {
    PointsAre(routes);
    WhereHas(Points(routes), Solid);
  }

  lemma SettledIff(routes: seq<Route>)
    requires Fairly(routes)
    ensures forall r :: r in Where(routes, Eligible) <==> Settled(routes, r)
  {
    WhereHas(routes, Eligible);
    forall r | r in routes && r.n >= 5 ensures r.interval.p.Some? { assert Fair(r); }
  }

  lemma BestPlotted(routes: seq<Route>)
    requires Fairly(routes) && Where(Points(routes), Solid) != []
    ensures forall best :: TopPlotted(routes, best) <==> best == Best(Where(Points(routes), Solid))
  {
    hide Best, Where, Points, ByRate, Leads;
    PlottedIff(routes);
    var solid := Where(Points(routes), Solid);
    BestOf(solid);
    forall r | Plotted(routes, r) ensures Leads(Best(solid), r) { LeadsIff(Best(solid), r); }
    forall best | TopPlotted(routes, best) ensures best == Best(solid) {
      LeadsIff(best, Best(solid));
      OneBest(routes, best, Best(solid));
    }
  }

  lemma PlottedHas(routes: seq<Route>, r: Route)
    requires Plotted(routes, r)
    ensures r in routes && r.interval.p.Some? && r.x.Some? && Settled(routes, r)
  {}

  lemma BestSettled(routes: seq<Route>)
    requires Fairly(routes) && Where(routes, Eligible) != []
    ensures forall best :: TopSettled(routes, best) <==> best == Best(Where(routes, Eligible))
  {
    hide Best, Where, ByRate, Leads;
    SettledIff(routes);
    var eligible := Where(routes, Eligible);
    BestOf(eligible);
    forall r | Settled(routes, r) ensures Leads(Best(eligible), r) { LeadsIff(Best(eligible), r); }
    forall best | TopSettled(routes, best) ensures best == Best(eligible) {
      LeadsIff(best, Best(eligible));
      OneBest(routes, best, Best(eligible));
    }
  }

  // ----- the verdicts

  /** The best plotted route's whole interval lies above the point's. */
  ghost predicate OutOfReach(routes: seq<Route>, point: Route) {
    exists best :: TopPlotted(routes, best) && point.interval.hi < best.interval.lo
  }

  /** Some other plotted route may be as good and costs at most two thirds. */
  ghost predicate Undercut(routes: seq<Route>, point: Route) {
    exists other :: Undercuts(routes, other, point)
  }

  ghost predicate Undercuts(routes: seq<Route>, other: Route, point: Route) {
    && Plotted(routes, other) && other != point && Share(other.interval, point.interval)
    && point.x.Some? && 3.0 * other.x.value <= 2.0 * point.x.value
  }

  lemma OutOfReachIff(routes: seq<Route>, point: Route)
    requires Fairly(routes) && point in routes && Placed(point)
    ensures var eligible := Where(Points(routes), Solid);
      OutOfReach(routes, point) <==> eligible != [] && Best(eligible) != point && point.interval.hi < Best(eligible).interval.lo
  {
    hide Best, Where, Points, Leads;
    PlottedIff(routes);
    if Where(Points(routes), Solid) != [] {
      BestPlotted(routes);
      assert Fair(point);
    } else {
      forall best ensures !TopPlotted(routes, best) { assert !Plotted(routes, best); }
    }
  }

  lemma UndercutIff(routes: seq<Route>, point: Route)
    requires Fairly(routes) && point in routes && Placed(point)
    ensures Undercut(routes, point) <==>
      exists other :: other in Where(Points(routes), Solid) && Placed(other) && Halves(other, point)
  {
    hide Where, Points;
    PlottedIff(routes);
    forall other | Plotted(routes, other) ensures Halves(other, point) <==> Undercuts(routes, other, point) {
      assert Fair(other) && Fair(point);
      ShareIff(other.interval, point.interval);
    }
    if other :| other in Where(Points(routes), Solid) && Placed(other) && Halves(other, point) { assert Undercuts(routes, other, point); }
    if other :| Undercuts(routes, other, point) { assert other in Where(Points(routes), Solid) && Placed(other) && Halves(other, point); }
  }

  /**
   The four verdicts: too few settled rows; a best route out of reach; another route that may be as good for at most two
   thirds of the price; and otherwise on or near the frontier.
  */
  lemma VerdictIs(routes: seq<Route>, point: Route)
    requires Fairly(routes) && point in routes && Placed(point)
    ensures Verdict(routes, point) == Insufficient <==> point.n < 5
    ensures Verdict(routes, point) == Underpowered <==> point.n >= 5 && OutOfReach(routes, point)
    ensures Verdict(routes, point) == Overkill <==> point.n >= 5 && !OutOfReach(routes, point) && Undercut(routes, point)
    ensures Verdict(routes, point) == OnFrontier <==> point.n >= 5 && !OutOfReach(routes, point) && !Undercut(routes, point)
  {
    hide Where, Best, Points, OutOfReach, Undercut;
    OutOfReachIff(routes, point);
    UndercutIff(routes, point);
  }

  /** A cheapest plotted route is never called overkill, unless it is free. */
  lemma CheapestIsNeverOverkill(routes: seq<Route>, point: Route)
    requires Fairly(routes) && point in routes && Placed(point) && point.x.value > 0.0
    requires forall r :: Plotted(routes, r) ==> point.x.value <= r.x.value
    ensures Verdict(routes, point) != Overkill
  {
    hide OutOfReach, Verdict;
    VerdictIs(routes, point);
    forall other ensures !Undercuts(routes, other, point) {}
  }

  /** The best plotted route is itself never out of reach. */
  lemma BestIsNeverUnderpowered(routes: seq<Route>, best: Route)
    requires Fairly(routes) && TopPlotted(routes, best)
    ensures Verdict(routes, best) in {Overkill, OnFrontier}
  {
    hide Verdict, Leads, Undercut;
    PlottedHas(routes, best);
    VerdictIs(routes, best);
    assert Fair(best);
    if other :| TopPlotted(routes, other) && best.interval.hi < other.interval.lo {
      assert Fair(other) && Plotted(routes, other);
      PlottedHas(routes, other);
      LeadsIff(best, other);
    }
  }

  // ----- the recommendation

  /** Cheaper; of equal prices the better rate; of equal rates the earlier key. */
  ghost predicate Preferred(a: Route, b: Route)
    requires a.interval.p.Some? && b.interval.p.Some?
  {
    var p, q := a.interval.p.value, b.interval.p.value;
    CostsLess(a, b) || (a.x == b.x && (p > q || (p == q && (a.key == b.key || Less(a.key, b.key)))))
  }

  lemma PreferredIff(a: Route, b: Route)
    requires a.interval.p.Some? && b.interval.p.Some?
    ensures ByCost(a, b) <==> Preferred(a, b)
  {
    Irreflexive(a.key);
  }

  /** The recommended route is the preferred one of all settled routes whose interval meets the best one's. */
  ghost predicate RecommendedOf(routes: seq<Route>, c: Route) {
    exists best :: TopSettled(routes, best) && Settled(routes, c) && Share(c.interval, best.interval)
      && forall r :: Settled(routes, r) && Share(r.interval, best.interval) ==> Preferred(c, r)
  }

  lemma ChoiceIs(routes: seq<Route>)
    requires Fairly(routes) && Where(routes, Eligible) != []
    ensures Choice(routes).Some? && RecommendedOf(routes, Choice(routes).value)
  {
    hide Where, Best, ByCost, Leads, Preferred;
    var best := Best(Where(routes, Eligible));
    BestSettled(routes);
    SettledIff(routes);
    BestIs(routes);
    WithinHas(routes);
    ByCostIsTotal();
    FirstOf(Within(routes), ByCost);
    var c := Choice(routes).value;
    assert TopSettled(routes, best) && Fair(best) && Fair(c);
    ShareIff(c.interval, best.interval);
    forall r | Settled(routes, r) && Share(r.interval, best.interval) ensures Preferred(c, r) {
      assert Fair(r);
      ShareIff(r.interval, best.interval);
      assert r in Within(routes) && ByCost(c, r);
      PreferredIff(c, r);
    }
  }
}
