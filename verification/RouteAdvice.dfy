/** The whole recommendation: the local ranking, and the one led by priors when no route has settled rows enough. */
module RouteAdvice {
  import opened Text
  import opened Sorting
  import opened Order
  import opened Reals
  import opened Wilson
  import opened RouteFrontier
  import opened RouteRows
  import opened RouteVerdicts
  import opened RouteAnswers

  /** What recommend answers: local or prior only, the choice, the best route, and every candidate in order. */
  datatype Advice = Advice(local: bool, choice: Route, best: Route, ranked: seq<Route>)

  /** A route offered and never run. */
  function Blank(key: string, prior: string -> Option<real>): Route {
    Route(key, 0, 0, Interval(None, 0.0, 1.0), None, prior(key))
  }

  /** The untested routes that have a key no route had before, each once, in the order offered. */
  method Offered(routes: seq<Route>, untested: seq<Option<string>>, prior: string -> Option<real>) returns (r: seq<Route>)
    ensures r == Offers(untested, set x | x in routes :: x.key, prior)
  {
    var seen := set x | x in routes :: x.key;
    r := [];
    for i := 0 to |untested|
      invariant r + Offers(untested[i..], seen, prior) == Offers(untested, set x | x in routes :: x.key, prior)
    {
      assert untested[i..][1..] == untested[i + 1..];
      if untested[i].Some? && untested[i].value !in seen {
        r, seen := r + [Blank(untested[i].value, prior)], seen + {untested[i].value};
      }
    }
  }

  function Offers(untested: seq<Option<string>>, seen: set<string>, prior: string -> Option<real>): seq<Route> {
    if untested == [] then []
    else if untested[0].None? || untested[0].value in seen then Offers(untested[1..], seen, prior)
    else [Blank(untested[0].value, prior)] + Offers(untested[1..], seen + {untested[0].value}, prior)
  }

  /** Highest score first, a route without a prior as minus one; then by cost. */
  predicate ByScore(a: Route, b: Route) {
    var s, t := if PriorScore(a).Some? then PriorScore(a).value else -1.0, if PriorScore(b).Some? then PriorScore(b).value else -1.0;
    s > t || (s == t && ByCost(a, b))
  }

  /** The settled routes whose interval does not meet the best one's. */
  function Beyond(routes: seq<Route>): seq<Route>
    requires Where(routes, Eligible) != []
  {
    var best := Best(Where(routes, Eligible));
    Where(Where(routes, Eligible), (r: Route) => !Overlaps(r.interval, best.interval))
  }

  function LocalAdvice(routes: seq<Route>): (r: Option<Advice>)
    requires Where(routes, Eligible) != []
  {
    var ranked := Sort(Within(routes), ByCost) + Sort(Beyond(routes), ByRateThenKey);
    if ranked == [] then None else Some(Advice(true, ranked[0], Best(Where(routes, Eligible)), ranked))
  }

  function PriorAdvice(candidates: seq<Route>): Option<Advice> {
    var ranked := Sort(candidates, ByScore);
    if ranked == [] then None else Some(Advice(false, ranked[0], ranked[0], ranked))
  }

  /** recommend. */
  function Recommend(rows: seq<Row>, role: string, proving: bool, taskClass: Option<string>, untested: seq<Option<string>>,
                     z: real, sqrt: real -> real, prior: string -> Option<real>): Option<Advice> {
    var scoped := Scoped(rows, proving, taskClass);
    var routes := Routes(scoped, role, z, sqrt, prior);
    if !OneClass(scoped, role) then None
    else if Where(routes, Eligible) != [] then LocalAdvice(routes)
    else PriorAdvice(routes + Offers(untested, set x | x in routes :: x.key, prior))
  }

  // ----- the candidates

  ghost predicate KeysDiffer(s: seq<Route>) {
    forall i, j :: 0 <= i < j < |s| ==> s[i].key != s[j].key
  }

  lemma KeysDifferMore(x: Route, s: seq<Route>)
    requires KeysDiffer(s) && forall y :: y in s ==> y.key != x.key
    ensures KeysDiffer([x] + s)
  {}

  lemma {:induction false} OffersAre(untested: seq<Option<string>>, seen: set<string>, prior: string -> Option<real>)
    ensures forall r :: r in Offers(untested, seen, prior) <==> r.key !in seen && Some(r.key) in untested && r == Blank(r.key, prior)
    ensures KeysDiffer(Offers(untested, seen, prior))
  {
    if untested != [] {
      var first, rest := untested[0], untested[1..];
      assert untested == [first] + rest;
      if first.None? || first.value in seen {
        OffersAre(rest, seen, prior);
        assert Offers(untested, seen, prior) == Offers(rest, seen, prior);
        forall r ensures r in Offers(untested, seen, prior) <==> r.key !in seen && Some(r.key) in untested && r == Blank(r.key, prior) {
          assert Some(r.key) in untested <==> Some(r.key) == first || Some(r.key) in rest;
        }
      } else {
        OffersAre(rest, seen + {first.value}, prior);
        var blank, offers := Blank(first.value, prior), Offers(rest, seen + {first.value}, prior);
        assert Offers(untested, seen, prior) == [blank] + offers;
        forall r ensures r in [blank] + offers <==> r.key !in seen && Some(r.key) in untested && r == Blank(r.key, prior) {
          assert r in [blank] + offers <==> r == blank || r in offers;
        }
        KeysDifferMore(blank, offers);
      }
    }
  }

  /** An untested route whose key no row's route has: nothing is known of it but its prior. */
  ghost predicate Fresh(routes: seq<Route>, untested: seq<Option<string>>, prior: string -> Option<real>, r: Route) {
    && (forall x :: x in routes ==> x.key != r.key) && Some(r.key) in untested
    && r == Route(r.key, 0, 0, Interval(None, 0.0, 1.0), None, prior(r.key))
  }

  /** Every route of the rows and every untested one that has a key, each key once; an untested one brings nothing but its prior. */
  lemma CandidatesAre(routes: seq<Route>, untested: seq<Option<string>>, prior: string -> Option<real>)
    requires Fairly(routes)
    ensures var candidates := routes + Offers(untested, set x | x in routes :: x.key, prior);
      && Fairly(candidates)
      && forall r :: r in candidates <==> r in routes || Fresh(routes, untested, prior, r)
  {
    OffersAre(untested, set x | x in routes :: x.key, prior);
  }

  // ----- the orders

  /** The mean of a prior of strength four with the route's own rows added, and minus one where there is no prior. */
  ghost function Trust(r: Route): real {
    if r.prior.None? then -1.0 else (r.passes as real + 4.0 * r.prior.value) / (r.n as real + 4.0)
  }

  ghost function Observed(r: Route): real {
    if r.interval.p.None? then -1.0 else r.interval.p.value
  }

  /** More trusted; of equal trust the cheaper; of equal prices the better observed; and then the earlier key. */
  ghost predicate Trusted(a: Route, b: Route) {
    Trust(a) > Trust(b) || (Trust(a) == Trust(b) && (CostsLess(a, b) || (a.x == b.x && Higher(a, b))))
  }

  ghost predicate Higher(a: Route, b: Route) {
    Observed(a) > Observed(b) || (Observed(a) == Observed(b) && (a.key == b.key || Less(a.key, b.key)))
  }

  lemma HigherIff(a: Route, b: Route)
    ensures ByRateThenKey(a, b) <==> Higher(a, b)
  {}

  lemma TrustedIff(a: Route, b: Route)
    ensures ByScore(a, b) <==> Trusted(a, b)
  {
    hide ByRateThenKey, Higher;
    HigherIff(a, b);
  }

  lemma ByScoreIsTotal()
    ensures TotalPreorder(ByScore)
  {
    hide ByCost, PriorScore;
    ByCostIsTotal();
  }

  lemma ByRateThenKeyIsTotal()
    ensures TotalPreorder(ByRateThenKey)
  {
    forall a, b ensures ByRateThenKey(a, b) || ByRateThenKey(b, a) { Connected(a.key, b.key); }
    forall a, b, c | ByRateThenKey(a, b) && ByRateThenKey(b, c) ensures ByRateThenKey(a, c) {
      if Less(a.key, b.key) && Less(b.key, c.key) { Transitive(a.key, b.key, c.key); }
    }
  }

  // ----- the prior-only answer

  /** Led by priors: every candidate once, the more trusted first, and the first is both the choice and the best. */
  lemma PriorAdviceIs(candidates: seq<Route>)
    ensures PriorAdvice(candidates).None? <==> candidates == []
    ensures PriorAdvice(candidates).Some? ==>
      (var a := PriorAdvice(candidates).value;
       && !a.local && multiset(a.ranked) == multiset(candidates) && a.ranked != [] && a.choice == a.ranked[0] && a.best == a.ranked[0]
       && forall i, j :: 0 <= i < j < |a.ranked| ==> Trusted(a.ranked[i], a.ranked[j]))
  {
    hide ByScore, Sort, Trusted;
    ByScoreIsTotal();
    SortIsSortedPermutation(candidates, ByScore);
    var ranked := Sort(candidates, ByScore);
    forall i, j | 0 <= i < j < |ranked| ensures Trusted(ranked[i], ranked[j]) { TrustedIff(ranked[i], ranked[j]); }
  }

  // ----- the local answer

  lemma {:induction false} Parted(s: seq<Route>, keep: Route -> bool, drop: Route -> bool)
    requires forall x :: keep(x) <==> !drop(x)
    ensures multiset(Where(s, keep)) + multiset(Where(s, drop)) == multiset(s)
  {
    if s != [] {
      Parted(s[1..], keep, drop);
      assert s == [s[0]] + s[1..];
      assert multiset(s) == multiset([s[0]]) + multiset(s[1..]);
    }
  }

  lemma Halved(routes: seq<Route>)
    requires Where(routes, Eligible) != []
    ensures multiset(Within(routes)) + multiset(Beyond(routes)) == multiset(Where(routes, Eligible))
  {
    var best := Best(Where(routes, Eligible));
    Parted(Where(routes, Eligible), (r: Route) => Overlaps(r.interval, best.interval), (r: Route) => !Overlaps(r.interval, best.interval));
  }

  ghost predicate HasRate(r: Route) {
    r.interval.p.Some?
  }

  ghost predicate Near(r: Route, best: Route) {
    Share(r.interval, best.interval)
  }

  /** In the local ranking a route that may be as good as the best comes first; among those the preferred one, among the others the better one. */
  ghost predicate Ahead(a: Route, b: Route, best: Route)
  {
    HasRate(a) && HasRate(b) && if Near(a, best) then !Near(b, best) || Preferred(a, b) else !Near(b, best) && Higher(a, b)
  }

  lemma NearIff(routes: seq<Route>, r: Route)
    requires Fairly(routes) && Where(routes, Eligible) != []
    ensures r in Within(routes) ==> Settled(routes, r) && Near(r, Best(Where(routes, Eligible)))
    ensures r in Beyond(routes) ==> Settled(routes, r) && !Near(r, Best(Where(routes, Eligible)))
  {
    hide Where, Best;
    SettledIff(routes);
    BestIs(routes);
    WithinHas(routes);
    var best := Best(Where(routes, Eligible));
    WhereHas(Where(routes, Eligible), (r: Route) => !Overlaps(r.interval, best.interval));
    if r in routes && Eligible(r) { assert Fair(r) && Fair(best); ShareIff(r.interval, best.interval); }
  }

  /** Local: every settled route once, in that order, with the first as the choice and the best route told. */
  lemma LocalAdviceIs(routes: seq<Route>)
    requires Fairly(routes) && Where(routes, Eligible) != []
    ensures LocalAdvice(routes).Some?
    ensures var a := LocalAdvice(routes).value;
      && a.local && TopSettled(routes, a.best) && Some(a.choice) == Choice(routes) && a.ranked != [] && a.choice == a.ranked[0]
      && multiset(a.ranked) == multiset(Where(routes, Eligible))
      && (forall r :: r in a.ranked ==> Settled(routes, r))
      && forall i, j :: 0 <= i < j < |a.ranked| ==> Ahead(a.ranked[i], a.ranked[j], a.best)
  {
    hide Where, Best, Sort, Within, Beyond, TopSettled, Settled, ByCost, ByRateThenKey, Ahead;
    var best := Best(Where(routes, Eligible));
    var near, far := Sort(Within(routes), ByCost), Sort(Beyond(routes), ByRateThenKey);
    LocalStarts(routes);
    Halved(routes);
    ByCostIsTotal();
    ByRateThenKeyIsTotal();
    SortIsSortedPermutation(Within(routes), ByCost);
    SortIsSortedPermutation(Beyond(routes), ByRateThenKey);
    SortKeeps(Within(routes), ByCost);
    SortKeeps(Beyond(routes), ByRateThenKey);
    forall r | r in near ensures HasRate(r) && Settled(routes, r) && Near(r, best) { NearIff(routes, r); SettledHas(routes, r); }
    forall r | r in far ensures HasRate(r) && Settled(routes, r) && !Near(r, best) { NearIff(routes, r); SettledHas(routes, r); }
    forall i, j | 0 <= i < j < |near + far| ensures Ahead((near + far)[i], (near + far)[j], best) {
      AheadIf(near, far, best, i, j);
    }
  }

  lemma SettledHas(routes: seq<Route>, r: Route)
    requires Settled(routes, r)
    ensures HasRate(r)
  {}

  lemma LocalStarts(routes: seq<Route>)
    requires Fairly(routes) && Where(routes, Eligible) != []
    ensures TopSettled(routes, Best(Where(routes, Eligible))) && Choice(routes).Some?
    ensures Sort(Within(routes), ByCost) != [] && Choice(routes).value == Sort(Within(routes), ByCost)[0]
  {
    hide TopSettled, ByCost, Best, Where;
    BestSettled(routes);
    ChoiceIs(routes);
  }

  lemma AheadIf(near: seq<Route>, far: seq<Route>, best: Route, i: nat, j: nat)
    requires i < j < |near + far| && Sorted(near, ByCost) && Sorted(far, ByRateThenKey)
    requires forall r :: r in near ==> HasRate(r) && Near(r, best)
    requires forall r :: r in far ==> HasRate(r) && !Near(r, best)
    ensures Ahead((near + far)[i], (near + far)[j], best)
  {
    hide ByCost, ByRateThenKey, Preferred, Higher, Near;
    var a, b := (near + far)[i], (near + far)[j];
    assert (a in near || a in far) && (b in near || b in far);
    if j < |near| {
      assert a == near[i] && b == near[j];
      PreferredIff(a, b);
    } else if i < |near| {
      assert a == near[i] && b == far[j - |near|];
    } else {
      assert a == far[i - |near|] && b == far[j - |near|];
      HigherIff(a, b);
    }
  }

  // ----- the answer

  /** Some row counts for some route. */
  ghost predicate AnyEvidence(rows: seq<Row>, role: string, proving: bool, taskClass: Option<string>) {
    exists row, key :: row in rows && Evidence(row, role, key, proving, taskClass)
  }

  /**
   When there is an answer, and of which kind: none where classes are mixed, or nothing was run or offered; a local one exactly
   where some route has five settled rows; and otherwise one led by priors.
  */
  lemma RecommendIs(rows: seq<Row>, role: string, proving: bool, taskClass: Option<string>, untested: seq<Option<string>>,
                    z: real, sqrt: real -> real, prior: string -> Option<real>)
    requires z > 0.0 && IsSqrt(sqrt)
    ensures var answer, routes := Recommend(rows, role, proving, taskClass, untested, z, sqrt, prior), Routes(Scoped(rows, proving, taskClass), role, z, sqrt, prior);
      && (answer.Some? <==> !MixedClasses(rows, role, proving, taskClass) && (AnyEvidence(rows, role, proving, taskClass) || exists key: string :: Some(key) in untested))
      && (answer.Some? ==> (answer.value.local <==> exists r :: r in routes && r.n >= 5))
  {
    hide Scoped, Routes, Offers, LocalAdvice, PriorAdvice, Evidence, MixedClasses, Where;
    var scoped := Scoped(rows, proving, taskClass);
    var routes := Routes(scoped, role, z, sqrt, prior);
    ScopedHas(rows, proving, taskClass);
    OneClassIff(rows, scoped, role, proving, taskClass);
    RoutesAreFair(scoped, role, z, sqrt, prior);
    WhereHas(routes, Eligible);
    var candidates := routes + Offers(untested, set x | x in routes :: x.key, prior);
    AnyCandidate(rows, role, proving, taskClass, untested, z, sqrt, prior);
    if Where(routes, Eligible) != [] {
      LocalAdviceIs(routes);
      assert Where(routes, Eligible)[0] in Where(routes, Eligible);
    } else {
      PriorAdviceIs(candidates);
    }
  }

  lemma AnyCandidate(rows: seq<Row>, role: string, proving: bool, taskClass: Option<string>, untested: seq<Option<string>>,
                     z: real, sqrt: real -> real, prior: string -> Option<real>)
    requires z > 0.0 && IsSqrt(sqrt)
    ensures var routes := Routes(Scoped(rows, proving, taskClass), role, z, sqrt, prior);
      && (routes != [] ==> AnyEvidence(rows, role, proving, taskClass))
      && (routes + Offers(untested, set x | x in routes :: x.key, prior) != [] <==>
           AnyEvidence(rows, role, proving, taskClass) || exists key: string :: Some(key) in untested)
  {
    hide Scoped, Routes, Offers, Evidence;
    var routes := Routes(Scoped(rows, proving, taskClass), role, z, sqrt, prior);
    RoutesAreFair(Scoped(rows, proving, taskClass), role, z, sqrt, prior);
    CandidatesAre(routes, untested, prior);
    var candidates := routes + Offers(untested, set x | x in routes :: x.key, prior);
    if routes != [] {
      assert routes[0] in routes;
      EveryRouteIsThere(rows, role, proving, taskClass, z, sqrt, prior, routes[0].key);
    }
    if candidates != [] && routes == [] {
      assert candidates[0] in candidates;
      assert Some(candidates[0].key) in untested;
    }
    if row, key :| row in rows && Evidence(row, role, key, proving, taskClass) {
      EveryRouteIsThere(rows, role, proving, taskClass, z, sqrt, prior, key);
    }
    if key: string :| Some(key) in untested {
      if routes == [] { assert Blank(key, prior) in candidates; }
    }
  }

  /** The local answer on the routes of the rows. */
  lemma LocalAnswer(rows: seq<Row>, role: string, proving: bool, taskClass: Option<string>, untested: seq<Option<string>>,
                    z: real, sqrt: real -> real, prior: string -> Option<real>)
    requires z > 0.0 && IsSqrt(sqrt)
    ensures var answer, routes := Recommend(rows, role, proving, taskClass, untested, z, sqrt, prior), Routes(Scoped(rows, proving, taskClass), role, z, sqrt, prior);
      answer.Some? && answer.value.local ==>
        (var a := answer.value;
         && Recommended(rows, role, proving, taskClass, z, sqrt, prior) == Some(a.choice)
         && RecommendedOf(routes, a.choice) && TopSettled(routes, a.best) && a.ranked != [] && a.choice == a.ranked[0]
         && (forall r :: r in a.ranked <==> Settled(routes, r))
         && KeysDiffer(a.ranked)
         && forall i, j :: 0 <= i < j < |a.ranked| ==> Ahead(a.ranked[i], a.ranked[j], a.best))
  {
    hide Scoped, Routes, Offers, LocalAdvice, PriorAdvice, RecommendedOf, TopSettled, Ahead, Where, Choice;
    var routes := Routes(Scoped(rows, proving, taskClass), role, z, sqrt, prior);
    RoutesAreFair(Scoped(rows, proving, taskClass), role, z, sqrt, prior);
    if Where(routes, Eligible) != [] {
      LocalAdviceIs(routes);
      ChoiceIs(routes);
      SettledIff(routes);
      var a := LocalAdvice(routes).value;
      forall r ensures r in a.ranked <==> Settled(routes, r) {
        assert r in a.ranked <==> r in multiset(a.ranked);
        assert r in Where(routes, Eligible) <==> r in multiset(Where(routes, Eligible));
      }
      WhereKeys(routes, Eligible);
      KeysOnce(Where(routes, Eligible), a.ranked);
    } else {
      PriorAdviceIs(routes + Offers(untested, set x | x in routes :: x.key, prior));
    }
  }

  lemma {:induction false} WhereKeys(s: seq<Route>, keep: Route -> bool)
    requires KeysDiffer(s)
    ensures KeysDiffer(Where(s, keep))
  {
    if s != [] {
      WhereKeys(s[1..], keep);
      WhereHas(s[1..], keep);
      var rest := Where(s[1..], keep);
      forall y | y in rest ensures y.key != s[0].key {
        var k :| 0 <= k < |s[1..]| && s[1..][k] == y;
        assert s[k + 1] == y;
      }
      KeysDifferMore(s[0], rest);
      assert Where(s, keep) == if keep(s[0]) then [s[0]] + rest else rest;
    }
  }

  lemma Twice(t: seq<Route>, i: nat, j: nat)
    requires i < j < |t| && t[i] == t[j]
    ensures multiset(t)[t[i]] >= 2
  {
    assert t == t[..i] + [t[i]] + t[i + 1..j] + [t[j]] + t[j + 1..];
  }

  lemma Once(s: seq<Route>, a: nat)
    requires a < |s| && forall i :: 0 <= i < |s| && i != a ==> s[i] != s[a]
    ensures multiset(s)[s[a]] == 1
  {
    assert s == s[..a] + [s[a]] + s[a + 1..];
    assert s[a] !in s[..a] && s[a] !in s[a + 1..];
    assert s[a] !in multiset(s[..a]) && s[a] !in multiset(s[a + 1..]);
  }

  lemma Stands(s: seq<Route>, x: Route) returns (a: nat)
    requires x in multiset(s)
    ensures a < |s| && s[a] == x
  {
    assert x in s;
    a :| 0 <= a < |s| && s[a] == x;
  }

  /** Distinct keys stay distinct in any other order. */
  lemma KeysOnce(s: seq<Route>, t: seq<Route>)
    requires multiset(s) == multiset(t) && KeysDiffer(s)
    ensures KeysDiffer(t)
  {
    forall i, j | 0 <= i < j < |t| && t[i].key == t[j].key ensures false {
      assert t[i] in t && t[j] in t && t[i] in multiset(t) && t[j] in multiset(t);
      var a := Stands(s, t[i]);
      var b := Stands(s, t[j]);
      Once(s, a);
      Twice(t, i, j);
    }
  }

  /** The answer led by priors: every route of the rows and every untested one, each once, the more trusted first. */
  lemma PriorAnswer(rows: seq<Row>, role: string, proving: bool, taskClass: Option<string>, untested: seq<Option<string>>,
                    z: real, sqrt: real -> real, prior: string -> Option<real>)
    requires z > 0.0 && IsSqrt(sqrt)
    ensures var answer, routes := Recommend(rows, role, proving, taskClass, untested, z, sqrt, prior), Routes(Scoped(rows, proving, taskClass), role, z, sqrt, prior);
      answer.Some? && !answer.value.local ==>
        (var a := answer.value;
         && a.ranked != [] && a.choice == a.ranked[0] && a.best == a.ranked[0]
         && (forall r :: r in a.ranked <==> r in routes || Fresh(routes, untested, prior, r))
         && KeysDiffer(a.ranked)
         && forall i, j :: 0 <= i < j < |a.ranked| ==> Trusted(a.ranked[i], a.ranked[j]))
  {
    hide Scoped, Routes, Offers, LocalAdvice, PriorAdvice, Trusted, Where, Fresh, IsSqrt;
    var routes := Routes(Scoped(rows, proving, taskClass), role, z, sqrt, prior);
    RoutesAreFair(Scoped(rows, proving, taskClass), role, z, sqrt, prior);
    if Where(routes, Eligible) != [] {
      LocalAdviceIs(routes);
    } else {
      var candidates := routes + Offers(untested, set x | x in routes :: x.key, prior);
      CandidatesAre(routes, untested, prior);
      PriorAdviceIs(candidates);
      if PriorAdvice(candidates).Some? {
        KeysOnce(candidates, PriorAdvice(candidates).value.ranked);
        SameMembers(candidates, PriorAdvice(candidates).value.ranked);
      }
    }
  }

  lemma SameMembers(s: seq<Route>, t: seq<Route>)
    requires multiset(s) == multiset(t)
    ensures forall r :: r in t <==> r in s
  {
    forall r ensures r in t <==> r in s {
      assert r in t <==> r in multiset(t);
      assert r in s <==> r in multiset(s);
    }
  }

  /** The frontier's routes: those of the rows, and none where classes are mixed. */
  lemma FrontierIs(rows: seq<Row>, role: string, proving: bool, taskClass: Option<string>, z: real, sqrt: real -> real, prior: string -> Option<real>)
    ensures var scoped := Scoped(rows, proving, taskClass);
      FrontierRoutes(scoped, role, z, sqrt, prior) == if MixedClasses(rows, role, proving, taskClass) then [] else Routes(scoped, role, z, sqrt, prior)
  {
    hide Scoped, Routes, MixedClasses;
    ScopedHas(rows, proving, taskClass);
    OneClassIff(rows, Scoped(rows, proving, taskClass), role, proving, taskClass);
  }
}
