/** From role-rows to routes: grouping, counting and pricing, and the recommendation on them. */
module RouteRows {
  import opened Text
  import opened Reals
  import opened Wilson
  import opened RouteFrontier

  /** What the comparison reads of one role-row; key is None when the route is not fully known. */
  datatype Row = Row(role: string, key: Option<string>, rankable: bool, taskClass: string, proving: bool,
                     settled: bool, firstPass: bool, price: Option<real>)

  predicate Counted(row: Row, role: string) {
    row.role == role && row.rankable && row.key.Some?
  }

  function Keys(rows: seq<Row>, role: string): (keys: seq<string>)
    ensures forall k :: k in keys <==> exists row :: row in rows && Counted(row, role) && row.key.value == k
    ensures forall i, j :: 0 <= i < j < |keys| ==> keys[i] != keys[j]
  {
    if rows == [] then []
    else
      var last := rows[|rows| - 1];
      var init := Keys(rows[..|rows| - 1], role);
      assert rows == rows[..|rows| - 1] + [last];
      if Counted(last, role) && last.key.value !in init then init + [last.key.value] else init
  }

  function GroupOf(rows: seq<Row>, role: string, key: string): seq<Row> {
    if rows == [] then []
    else
      var last := rows[|rows| - 1];
      GroupOf(rows[..|rows| - 1], role, key) + if Counted(last, role) && last.key.value == key then [last] else []
  }

  /** The map a grouping loop has built: one entry for each key met, holding that key's rows. */
  ghost predicate Grouped(rows: seq<Row>, role: string, order: seq<string>, groups: map<string, seq<Row>>) {
    && order == Keys(rows, role) && (forall k :: k in groups <==> k in order)
    && (forall k :: GroupOf(rows, role, k) == if k in groups then groups[k] else [])
  }

  lemma GroupedMore(rows: seq<Row>, row: Row, role: string, order: seq<string>, groups: map<string, seq<Row>>)
    requires Grouped(rows, role, order, groups)
    ensures !Counted(row, role) ==> Grouped(rows + [row], role, order, groups)
    ensures Counted(row, role) && row.key.value in groups ==>
      Grouped(rows + [row], role, order, groups[row.key.value := groups[row.key.value] + [row]])
    ensures Counted(row, role) && row.key.value !in groups ==>
      Grouped(rows + [row], role, order + [row.key.value], groups[row.key.value := [row]])
  {
    hide Keys, GroupOf;
    KeysMore(rows, row, role);
    forall k ensures GroupOf(rows + [row], role, k) == GroupOf(rows, role, k) + if Counted(row, role) && row.key.value == k then [row] else [] {
      GroupMore(rows, row, role, k);
    }
  }

  lemma KeysMore(rows: seq<Row>, row: Row, role: string)
    ensures Keys(rows + [row], role)
            == if Counted(row, role) && row.key.value !in Keys(rows, role) then Keys(rows, role) + [row.key.value] else Keys(rows, role)
  {
    assert (rows + [row])[..|rows|] == rows;
  }

  lemma GroupMore(rows: seq<Row>, row: Row, role: string, k: string)
    ensures GroupOf(rows + [row], role, k) == GroupOf(rows, role, k) + if Counted(row, role) && row.key.value == k then [row] else []
  {
    assert (rows + [row])[..|rows|] == rows;
  }

  /** byRoute: one loop over the rows, filling a map whose keys keep the order they were first met in. */
  method ByRoute(rows: seq<Row>, role: string) returns (order: seq<string>, groups: map<string, seq<Row>>)
    ensures Grouped(rows, role, order, groups)
  {
    hide Grouped;
    order, groups := [], map[];
    NothingGrouped(role);
    for i := 0 to |rows|
      invariant Grouped(rows[..i], role, order, groups)
    {
      assert rows[..i + 1] == rows[..i] + [rows[i]];
      GroupedMore(rows[..i], rows[i], role, order, groups);
      if Counted(rows[i], role) {
        var key := rows[i].key.value;
        if key in groups {
          groups := groups[key := groups[key] + [rows[i]]];
        } else {
          order, groups := order + [key], groups[key := [rows[i]]];
        }
      }
    }
    assert rows[..|rows|] == rows;
  }

  lemma NothingGrouped(role: string)
    ensures Grouped([], role, [], map[])
  {}

  function SettledIn(rows: seq<Row>): nat {
    if rows == [] then 0 else SettledIn(rows[1..]) + if rows[0].settled then 1 else 0
  }

  function PassesIn(rows: seq<Row>): (n: nat)
    ensures n <= SettledIn(rows)
  {
    if rows == [] then 0 else PassesIn(rows[1..]) + if rows[0].settled && rows[0].firstPass then 1 else 0
  }

  function PricedIn(rows: seq<Row>): nat {
    if rows == [] then 0 else PricedIn(rows[1..]) + if rows[0].price.Some? then 1 else 0
  }

  function TotalPrice(rows: seq<Row>): real {
    if rows == [] then 0.0 else TotalPrice(rows[1..]) + if rows[0].price.Some? then rows[0].price.value else 0.0
  }

  function ListPerRow(rows: seq<Row>): Option<real> {
    if PricedIn(rows) == 0 then None else Some(TotalPrice(rows) / PricedIn(rows) as real)
  }

  function RouteOf(rows: seq<Row>, role: string, key: string, z: real, sqrt: real -> real, prior: string -> Option<real>): Route {
    var group := GroupOf(rows, role, key);
    Route(key, SettledIn(group), PassesIn(group), Score(PassesIn(group), SettledIn(group), z, sqrt), ListPerRow(group), prior(key))
  }

  function RoutesOf(rows: seq<Row>, role: string, keys: seq<string>, z: real, sqrt: real -> real, prior: string -> Option<real>): (r: seq<Route>)
    ensures |r| == |keys| && forall i :: 0 <= i < |r| ==> r[i] == RouteOf(rows, role, keys[i], z, sqrt, prior)
  {
    if keys == [] then [] else [RouteOf(rows, role, keys[0], z, sqrt, prior)] + RoutesOf(rows, role, keys[1..], z, sqrt, prior)
  }

  function Routes(rows: seq<Row>, role: string, z: real, sqrt: real -> real, prior: string -> Option<real>): seq<Route> {
    RoutesOf(rows, role, Keys(rows, role), z, sqrt, prior)
  }

  /** The rows of one evidence source and, when one is asked for, one task class. */
  function Scoped(rows: seq<Row>, proving: bool, taskClass: Option<string>): seq<Row> {
    if rows == [] then []
    else (if rows[0].proving == proving && (taskClass.None? || rows[0].taskClass == taskClass.value) then [rows[0]] else [])
         + Scoped(rows[1..], proving, taskClass)
  }

  predicate OneClass(rows: seq<Row>, role: string) {
    forall a, b :: a in rows && b in rows && a.role == role && b.role == role ==> a.taskClass == b.taskClass
  }

  /** The frontier of rows: nothing at all when classes are mixed. */
  function FrontierRoutes(rows: seq<Row>, role: string, z: real, sqrt: real -> real, prior: string -> Option<real>): seq<Route> {
    if OneClass(rows, role) then Routes(rows, role, z, sqrt, prior) else []
  }

  /** recommend's choice on the local branch, None when classes are mixed or no route has enough settled rows. */
  function Recommended(rows: seq<Row>, role: string, proving: bool, taskClass: Option<string>,
                       z: real, sqrt: real -> real, prior: string -> Option<real>): Option<Route> {
    var scoped := Scoped(rows, proving, taskClass);
    var routes := Routes(scoped, role, z, sqrt, prior);
    if !OneClass(scoped, role) || Where(routes, Eligible) == [] then None else Choice(routes)
  }

  lemma RoutesAreFair(rows: seq<Row>, role: string, z: real, sqrt: real -> real, prior: string -> Option<real>)
    requires z > 0.0 && IsSqrt(sqrt)
    ensures Fairly(Routes(rows, role, z, sqrt, prior))
  {
    var routes, keys := Routes(rows, role, z, sqrt, prior), Keys(rows, role);
    forall r | r in routes ensures Fair(r) {
      var i :| 0 <= i < |routes| && routes[i] == r;
      var group := GroupOf(rows, role, keys[i]);
      if SettledIn(group) > 0 { ScoreHoldsRate(PassesIn(group), SettledIn(group), z, sqrt); }
    }
  }

  predicate BestIsPriced(routes: seq<Route>) {
    Where(routes, Eligible) != [] && Best(Where(routes, Eligible)).x.Some?
  }

  /**
   In one source and one class, with the best eligible route priced: the recommended route is on the first-pass
   by list-price frontier, never insufficient or underpowered there, and costs no more than the best route.
  */
  lemma RecommendationAgreesWithVerdicts(rows: seq<Row>, role: string, proving: bool, taskClass: Option<string>,
                                         z: real, sqrt: real -> real, prior: string -> Option<real>)
    requires z > 0.0 && IsSqrt(sqrt) && Recommended(rows, role, proving, taskClass, z, sqrt, prior).Some?
    requires BestIsPriced(Routes(Scoped(rows, proving, taskClass), role, z, sqrt, prior))
    ensures var routes := FrontierRoutes(Scoped(rows, proving, taskClass), role, z, sqrt, prior);
      var c := Recommended(rows, role, proving, taskClass, z, sqrt, prior).value;
      && c in routes && Placed(c) && Verdict(routes, c) !in {Insufficient, Underpowered}
      && Where(routes, Eligible) != [] && !Cheaper(Best(Where(routes, Eligible)), c)
  {
    var routes := Routes(Scoped(rows, proving, taskClass), role, z, sqrt, prior);
    RoutesAreFair(Scoped(rows, proving, taskClass), role, z, sqrt, prior);
    ChoiceIsNeverUnderpowered(routes);
    ChoiceIsCheapestOverlapping(routes);
  }

  // ----- why the best route must be priced

  /** n settled rows of one route, the first k of them first passes. */
  function Batch(key: string, n: nat, k: nat, price: Option<real>): (rows: seq<Row>)
    ensures |rows| == n && forall row :: row in rows ==>
      row.role == "builder" && row.key == Some(key) && row.rankable && row.taskClass == "any" && !row.proving
  {
    if n == 0 then []
    else
      var rest := Batch(key, n - 1, if k > 0 then k - 1 else 0, price);
      var first := Row("builder", Some(key), true, "any", false, true, k > 0, price);
      assert forall row :: row in [first] + rest ==> row == first || row in rest;
      [first] + rest
  }

  lemma {:induction false} BatchCounts(key: string, n: nat, k: nat, price: Option<real>)
    requires k <= n
    ensures SettledIn(Batch(key, n, k, price)) == n && PassesIn(Batch(key, n, k, price)) == k
    ensures PricedIn(Batch(key, n, k, price)) == if price.Some? then n else 0
    ensures price.Some? ==> TotalPrice(Batch(key, n, k, price)) == n as real * price.value
  {
    hide SettledIn, PassesIn, PricedIn, TotalPrice;
    NothingCounted();
    if n > 0 {
      var rest := Batch(key, n - 1, if k > 0 then k - 1 else 0, price);
      BatchCounts(key, n - 1, if k > 0 then k - 1 else 0, price);
      CountsFirst(Row("builder", Some(key), true, "any", false, true, k > 0, price), rest);
      if price.Some? { OneMoreTime(n, price.value); }
    }
  }

  lemma NothingCounted()
    ensures SettledIn([]) == 0 && PassesIn([]) == 0 && PricedIn([]) == 0 && TotalPrice([]) == 0.0
  {}

  lemma CountsFirst(first: Row, rest: seq<Row>)
    requires first.settled
    ensures SettledIn([first] + rest) == SettledIn(rest) + 1 && PassesIn([first] + rest) == PassesIn(rest) + if first.firstPass then 1 else 0
    ensures PricedIn([first] + rest) == PricedIn(rest) + if first.price.Some? then 1 else 0
    ensures TotalPrice([first] + rest) == TotalPrice(rest) + if first.price.Some? then first.price.value else 0.0
  {
    assert ([first] + rest)[1..] == rest;
  }

  lemma OneMoreTime(n: nat, price: real)
    requires n > 0
    ensures (n - 1) as real * price + price == n as real * price
  {}

  lemma {:induction false} GroupAppend(a: seq<Row>, b: seq<Row>, role: string, key: string)
    ensures GroupOf(a + b, role, key) == GroupOf(a, role, key) + GroupOf(b, role, key)
  {
    if b == [] {
      assert a + b == a;
    } else {
      GroupAppend(a, b[..|b| - 1], role, key);
      assert (a + b)[..|a + b| - 1] == a + b[..|b| - 1];
    }
  }

  lemma {:induction false} GroupAll(rows: seq<Row>, role: string, key: string, other: string)
    requires forall row :: row in rows ==> Counted(row, role) && row.key.value == other
    ensures GroupOf(rows, role, key) == if key == other then rows else []
  {
    if rows != [] {
      var n := |rows| - 1;
      assert rows[n] in rows;
      forall row | row in rows[..n] ensures row in rows {}
      GroupAll(rows[..n], role, key, other);
      assert rows == rows[..n] + [rows[n]];
    }
  }

  /** An unpriced route that always passed, a cheap one that passed three times in five, a dear one that failed once in a hundred. */
  function Uneven(): seq<Row> {
    Batch("a", 5, 5, None) + Batch("b", 5, 3, Some(1.0)) + Batch("c", 100, 99, Some(3.0))
  }

  function NoPriors(): string -> Option<real> {
    (key: string) => None
  }

  function UnevenRoutes(sqrt: real -> real): seq<Route> {
    Routes(Uneven(), "builder", 1.96, sqrt, NoPriors())
  }

  function Shown(key: string, n: nat, k: nat, price: Option<real>, sqrt: real -> real): Route
    requires k <= n
  {
    Route(key, n, k, Score(k, n, 1.96, sqrt), price, None)
  }

  lemma ShownAs(key: string, n: nat, k: nat, price: Option<real>, sqrt: real -> real)
    requires 0 < n && k <= n && GroupOf(Uneven(), "builder", key) == Batch(key, n, k, price)
    ensures RouteOf(Uneven(), "builder", key, 1.96, sqrt, NoPriors()) == Shown(key, n, k, price, sqrt)
  {
    hide Uneven, Batch, GroupOf, Score;
    BatchCounts(key, n, k, price);
    if price.Some? { Divided(n as real * price.value, price.value, n as real); }
  }

  lemma UnevenGroups(key: string)
    ensures GroupOf(Uneven(), "builder", key)
            == (if key == "a" then Batch("a", 5, 5, None) else []) + (if key == "b" then Batch("b", 5, 3, Some(1.0)) else [])
               + (if key == "c" then Batch("c", 100, 99, Some(3.0)) else [])
  {
    hide Batch, GroupOf;
    var a, b, c := Batch("a", 5, 5, None), Batch("b", 5, 3, Some(1.0)), Batch("c", 100, 99, Some(3.0));
    GroupAll(a, "builder", key, "a");
    GroupAll(b, "builder", key, "b");
    GroupAll(c, "builder", key, "c");
    GroupAppend(a, b, "builder", key);
    GroupAppend(a + b, c, "builder", key);
  }

  lemma ThreeKeys()
    ensures "a" != "b" && "a" != "c" && "b" != "c"
  {
    assert "a"[0] == 'a' && "b"[0] == 'b' && "c"[0] == 'c';
  }

  lemma UnevenKeys()
    ensures forall key :: key in Keys(Uneven(), "builder") <==> key in {"a", "b", "c"}
  {
    hide Batch, Keys;
    var rows := Uneven();
    var a, b, c := Batch("a", 5, 5, None), Batch("b", 5, 3, Some(1.0)), Batch("c", 100, 99, Some(3.0));
    assert rows == a + b + c;
    assert a[0] in rows && b[0] in rows && c[0] in rows;
    forall row | row in rows ensures Counted(row, "builder") && row.key.value in {"a", "b", "c"} {
      assert row in a || row in b || row in c;
    }
  }

  lemma UnevenIs(sqrt: real -> real, r: Route)
    ensures r in UnevenRoutes(sqrt)
      <==> r == Shown("a", 5, 5, None, sqrt) || r == Shown("b", 5, 3, Some(1.0), sqrt) || r == Shown("c", 100, 99, Some(3.0), sqrt)
  {
    hide *;
    UnevenKeys();
    UnevenShown(sqrt);
    UnevenRoutesAre(sqrt);
    RoutesHold(Uneven(), "builder", 1.96, sqrt, NoPriors(), r);
  }

  lemma UnevenRoutesAre(sqrt: real -> real)
    ensures UnevenRoutes(sqrt) == Routes(Uneven(), "builder", 1.96, sqrt, NoPriors())
  {}

  lemma UnevenShown(sqrt: real -> real)
    ensures RouteOf(Uneven(), "builder", "a", 1.96, sqrt, NoPriors()) == Shown("a", 5, 5, None, sqrt)
    ensures RouteOf(Uneven(), "builder", "b", 1.96, sqrt, NoPriors()) == Shown("b", 5, 3, Some(1.0), sqrt)
    ensures RouteOf(Uneven(), "builder", "c", 1.96, sqrt, NoPriors()) == Shown("c", 100, 99, Some(3.0), sqrt)
  {
    hide *;
    ThreeKeys();
    UnevenGroups("a");
    UnevenGroups("b");
    UnevenGroups("c");
    ShownAs("a", 5, 5, None, sqrt);
    ShownAs("b", 5, 3, Some(1.0), sqrt);
    ShownAs("c", 100, 99, Some(3.0), sqrt);
  }

  lemma RoutesHold(rows: seq<Row>, role: string, z: real, sqrt: real -> real, prior: string -> Option<real>, r: Route)
    ensures r in Routes(rows, role, z, sqrt, prior) <==> exists key :: key in Keys(rows, role) && r == RouteOf(rows, role, key, z, sqrt, prior)
  {
    hide Keys, RouteOf, RoutesOf;
    var routes, keys := Routes(rows, role, z, sqrt, prior), Keys(rows, role);
    if r in routes { var i :| 0 <= i < |routes| && routes[i] == r; assert keys[i] in keys; }
    if key :| key in keys && r == RouteOf(rows, role, key, z, sqrt, prior) {
      var i :| 0 <= i < |keys| && keys[i] == key;
      assert routes[i] == r;
    }
  }

  /** The cheap interval reaches the perfect one and stays below 0.9, which the dear one stays above. */
  lemma UnevenIntervals(sqrt: real -> real)
    requires IsSqrt(sqrt)
    ensures var a, b, c := Score(5, 5, 1.96, sqrt), Score(3, 5, 1.96, sqrt), Score(99, 100, 1.96, sqrt);
      && a.p == Some(1.0) && b.p == Some(0.6) && c.p == Some(0.99)
      && Overlaps(b, a) && b.hi < 0.9 < c.lo
  {
    hide Score, Rate;
    ScoreHoldsRate(5, 5, 1.96, sqrt);
    ScoreHoldsRate(3, 5, 1.96, sqrt);
    ScoreHoldsRate(99, 100, 1.96, sqrt);
    UnevenRates();
    ScoreIsSublevel(5, 5, 1.96, sqrt, 0.6);
    ScoreIsSublevel(3, 5, 1.96, sqrt, 0.9);
    ScoreIsSublevel(99, 100, 1.96, sqrt, 0.9);
  }

  lemma UnevenRates()
    ensures Rate(5, 5) == 1.0 && Rate(3, 5) == 0.6 && Rate(99, 100) == 0.99
  {}

  /**
   The frontier cannot place the unpriced best route, so its verdict on the recommended route compares the next best:
   the route that is recommended on these rows is the one the verdicts call underpowered.
  */
  lemma UnpricedBestDisagrees(sqrt: real -> real)
    requires IsSqrt(sqrt)
    ensures Where(UnevenRoutes(sqrt), Eligible) != [] && !BestIsPriced(UnevenRoutes(sqrt))
    ensures var b := Shown("b", 5, 3, Some(1.0), sqrt);
      && Recommended(Uneven(), "builder", false, None, 1.96, sqrt, NoPriors()) == Some(b) && Placed(b)
      && Verdict(FrontierRoutes(Scoped(Uneven(), false, None), "builder", 1.96, sqrt, NoPriors()), b) == Underpowered
  {
    hide Uneven, UnevenRoutes, Choice, Where, Best, Verdict, Score, Batch, Points, Routes;
    UnevenRoutesAre(sqrt);
    var routes := UnevenRoutes(sqrt);
    UnevenFair(sqrt);
    forall r: Route { UnevenIs(sqrt, r); }
    UnevenIntervals(sqrt);
    UnevenClass();
    var a, b, c := Shown("a", 5, 5, None, sqrt), Shown("b", 5, 3, Some(1.0), sqrt), Shown("c", 100, 99, Some(3.0), sqrt);
    assert a in routes && b in routes && c in routes;
    WhereHas(routes, Eligible);
    assert a in Where(routes, Eligible);
    BestIs(routes);
    assert Best(Where(routes, Eligible)) == a;
    ChoiceIsCheapestOverlapping(routes);
    assert Choice(routes) == Some(b);
    UnevenVerdict(routes, b, c);
  }

  lemma UnevenFair(sqrt: real -> real)
    requires IsSqrt(sqrt)
    ensures Fairly(UnevenRoutes(sqrt))
  {
    RoutesAreFair(Uneven(), "builder", 1.96, sqrt, NoPriors());
  }

  lemma UnevenClass()
    ensures Scoped(Uneven(), false, None) == Uneven() && OneClass(Uneven(), "builder")
  {
    var a, b, c := Batch("a", 5, 5, None), Batch("b", 5, 3, Some(1.0)), Batch("c", 100, 99, Some(3.0));
    forall row | row in Uneven() ensures row.taskClass == "any" && !row.proving { assert row in a || row in b || row in c; }
    ScopedAll(Uneven());
  }

  lemma {:induction false} ScopedAll(rows: seq<Row>)
    requires forall row :: row in rows ==> !row.proving
    ensures Scoped(rows, false, None) == rows
  {
    if rows != [] {
      assert rows[0] in rows;
      forall row | row in rows[1..] ensures row in rows {}
      ScopedAll(rows[1..]);
    }
  }

  lemma UnevenVerdict(routes: seq<Route>, b: Route, c: Route)
    requires b in routes && c in routes && Solid(b) && Solid(c) && b.interval.p.value < c.interval.p.value && b.interval.hi < c.interval.lo
    requires forall r :: r in routes && Solid(r) ==> r == b || r == c
    ensures Verdict(routes, b) == Underpowered
  {
    hide Best, Where, Points;
    PointsAre(routes);
    WhereHas(Points(routes), Solid);
    var solid := Where(Points(routes), Solid);
    assert c in solid;
    BestOf(solid);
  }
}
