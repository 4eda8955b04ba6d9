/** The recommendation read from the rows: what is counted for a route, and which route is recommended. */
module RouteAnswers {
  import opened Text
  import opened Reals
  import opened Wilson
  import opened RouteFrontier
  import opened RouteRows
  import opened RouteVerdicts

  /** A value for each row, added up. */
  ghost function Total(rows: seq<Row>, of: Row -> real): real {
    if rows == [] then 0.0 else Total(rows[..|rows| - 1], of) + of(rows[|rows| - 1])
  }

  /** The rows that count for a route: of the role, rankable, on the route, from the source and the class asked for. */
  ghost predicate Evidence(row: Row, role: string, key: string, proving: bool, taskClass: Option<string>) {
    && row.role == role && row.rankable && row.key == Some(key) && row.proving == proving
    && (taskClass.None? || row.taskClass == taskClass.value)
  }

  ghost function Each(keep: Row -> bool): Row -> real {
    row => if keep(row) then 1.0 else 0.0
  }

  ghost function Prices(keep: Row -> bool): Row -> real {
    row => if keep(row) && row.price.Some? then row.price.value else 0.0
  }

  /** One route's numbers: how many rows settled, how many of those at first pass, and the mean of the known prices. */
  ghost predicate Numbers(r: Route, rows: seq<Row>, role: string, proving: bool, taskClass: Option<string>) {
    && r.n as real == Total(rows, Each(row => Evidence(row, role, r.key, proving, taskClass) && row.settled))
    && r.passes as real == Total(rows, Each(row => Evidence(row, role, r.key, proving, taskClass) && row.settled && row.firstPass))
    && var priced := Total(rows, Each(row => Evidence(row, role, r.key, proving, taskClass) && row.price.Some?));
    && (r.x.None? <==> priced == 0.0)
    && (r.x.Some? ==> r.x.value * priced == Total(rows, Prices(row => Evidence(row, role, r.key, proving, taskClass))))
  }

  // ----- counting through the scope and the group

  lemma {:induction false} CountsAppend(a: seq<Row>, b: seq<Row>)
    ensures SettledIn(a + b) == SettledIn(a) + SettledIn(b) && PassesIn(a + b) == PassesIn(a) + PassesIn(b)
    ensures PricedIn(a + b) == PricedIn(a) + PricedIn(b) && TotalPrice(a + b) == TotalPrice(a) + TotalPrice(b)
  {
    if a == [] {
      assert a + b == b;
    } else {
      CountsAppend(a[1..], b);
      assert (a + b)[1..] == a[1..] + b;
    }
  }

  lemma CountsOne(row: Row)
    ensures SettledIn([row]) == (if row.settled then 1 else 0) && PassesIn([row]) == if row.settled && row.firstPass then 1 else 0
    ensures PricedIn([row]) == (if row.price.Some? then 1 else 0) && TotalPrice([row]) == if row.price.Some? then row.price.value else 0.0
  {
    assert [row][1..] == [];
  }

  lemma {:induction false} ScopedAppend(a: seq<Row>, b: seq<Row>, proving: bool, taskClass: Option<string>)
    ensures Scoped(a + b, proving, taskClass) == Scoped(a, proving, taskClass) + Scoped(b, proving, taskClass)
  {
    hide Scoped;
    if a == [] {
      assert a + b == b;
      NoScope(proving, taskClass);
    } else {
      ScopedAppend(a[1..], b, proving, taskClass);
      assert (a + b)[1..] == a[1..] + b && (a + b)[0] == a[0];
      ScopedFirst(a, proving, taskClass);
      ScopedFirst(a + b, proving, taskClass);
    }
  }

  lemma NoScope(proving: bool, taskClass: Option<string>)
    ensures Scoped([], proving, taskClass) == []
  {}

  lemma ScopedFirst(rows: seq<Row>, proving: bool, taskClass: Option<string>)
    requires rows != []
    ensures Scoped(rows, proving, taskClass) ==
      if rows[0].proving == proving && (taskClass.None? || rows[0].taskClass == taskClass.value) then [rows[0]] + Scoped(rows[1..], proving, taskClass)
      else Scoped(rows[1..], proving, taskClass)
  {
    assert [] + Scoped(rows[1..], proving, taskClass) == Scoped(rows[1..], proving, taskClass);
  }

  lemma GroupOne(rows: seq<Row>, row: Row, role: string, key: string, proving: bool, taskClass: Option<string>)
    ensures GroupOf(Scoped(rows + [row], proving, taskClass), role, key)
      == GroupOf(Scoped(rows, proving, taskClass), role, key) + if Evidence(row, role, key, proving, taskClass) then [row] else []
  {
    var scoped := Scoped(rows, proving, taskClass);
    ScopedAppend(rows, [row], proving, taskClass);
    assert [row][1..] == [];
    assert Scoped([], proving, taskClass) == [];
    if row.proving == proving && (taskClass.None? || row.taskClass == taskClass.value) {
      assert Scoped([row], proving, taskClass) == [row];
      GroupMore(scoped, row, role, key);
    } else {
      assert Scoped([row], proving, taskClass) == [];
      assert scoped + [] == scoped && GroupOf(scoped, role, key) + [] == GroupOf(scoped, role, key);
    }
  }

  lemma {:induction false} Counts(rows: seq<Row>, role: string, key: string, proving: bool, taskClass: Option<string>)
    ensures var group := GroupOf(Scoped(rows, proving, taskClass), role, key);
      && SettledIn(group) as real == Total(rows, Each(row => Evidence(row, role, key, proving, taskClass) && row.settled))
      && PassesIn(group) as real == Total(rows, Each(row => Evidence(row, role, key, proving, taskClass) && row.settled && row.firstPass))
      && PricedIn(group) as real == Total(rows, Each(row => Evidence(row, role, key, proving, taskClass) && row.price.Some?))
      && TotalPrice(group) == Total(rows, Prices(row => Evidence(row, role, key, proving, taskClass)))
  {
    hide GroupOf, Scoped, SettledIn, PassesIn, PricedIn, TotalPrice;
    if rows == [] {
      NothingScoped(role, key, proving, taskClass);
    } else {
      var init, row := rows[..|rows| - 1], rows[|rows| - 1];
      assert rows == init + [row];
      Counts(init, role, key, proving, taskClass);
      GroupOne(init, row, role, key, proving, taskClass);
      CountsAppend(GroupOf(Scoped(init, proving, taskClass), role, key), [row]);
      CountsOne(row);
      assert GroupOf(Scoped(init, proving, taskClass), role, key) + [] == GroupOf(Scoped(init, proving, taskClass), role, key);
    }
  }

  lemma NothingScoped(role: string, key: string, proving: bool, taskClass: Option<string>)
    ensures var group := GroupOf(Scoped([], proving, taskClass), role, key);
      SettledIn(group) == 0 && PassesIn(group) == 0 && PricedIn(group) == 0 && TotalPrice(group) == 0.0
  {}

  lemma MeanTimes(total: real, n: nat)
    requires n > 0
    ensures total / n as real * n as real == total
  {}

  /** What each route of the recommendation says is counted from the rows. */
  lemma RouteCounts(rows: seq<Row>, role: string, proving: bool, taskClass: Option<string>, z: real, sqrt: real -> real, prior: string -> Option<real>, r: Route)
    requires r in Routes(Scoped(rows, proving, taskClass), role, z, sqrt, prior)
    ensures Numbers(r, rows, role, proving, taskClass)
    ensures r.passes <= r.n && r.interval == Score(r.passes, r.n, z, sqrt)
  {
    hide *;
    var scoped := Scoped(rows, proving, taskClass);
    RouteIs(scoped, role, z, sqrt, prior, r);
    NumbersIf(r, rows, role, proving, taskClass, GroupOf(scoped, role, r.key));
  }

  lemma RouteIs(rows: seq<Row>, role: string, z: real, sqrt: real -> real, prior: string -> Option<real>, r: Route)
    requires r in Routes(rows, role, z, sqrt, prior)
    ensures var group := GroupOf(rows, role, r.key);
      r.n == SettledIn(group) && r.passes == PassesIn(group) && r.x == ListPerRow(group) && r.passes <= r.n && r.interval == Score(r.passes, r.n, z, sqrt)
  {
    hide GroupOf, SettledIn, PassesIn, ListPerRow, Score;
    var keys := Keys(rows, role);
    var i :| 0 <= i < |keys| && Routes(rows, role, z, sqrt, prior)[i] == r;
  }

  lemma NumbersIf(r: Route, rows: seq<Row>, role: string, proving: bool, taskClass: Option<string>, group: seq<Row>)
    requires group == GroupOf(Scoped(rows, proving, taskClass), role, r.key)
    requires r.n == SettledIn(group) && r.passes == PassesIn(group) && r.x == ListPerRow(group)
    ensures Numbers(r, rows, role, proving, taskClass)
  {
    hide GroupOf, Scoped, SettledIn, PassesIn, PricedIn, TotalPrice, Total;
    Counts(rows, role, r.key, proving, taskClass);
    if PricedIn(group) > 0 { MeanTimes(TotalPrice(group), PricedIn(group)); }
  }

  lemma {:induction false} ScopedHas(rows: seq<Row>, proving: bool, taskClass: Option<string>)
    ensures forall row :: row in Scoped(rows, proving, taskClass) <==>
      row in rows && row.proving == proving && (taskClass.None? || row.taskClass == taskClass.value)
  {
    if rows != [] {
      ScopedHas(rows[1..], proving, taskClass);
      assert rows == [rows[0]] + rows[1..];
    }
  }

  /** Every route that some row counts for stands among the routes, once. */
  lemma EveryRouteIsThere(rows: seq<Row>, role: string, proving: bool, taskClass: Option<string>, z: real, sqrt: real -> real, prior: string -> Option<real>, key: string)
    ensures (exists r :: r in Routes(Scoped(rows, proving, taskClass), role, z, sqrt, prior) && r.key == key)
      <==> exists row :: row in rows && Evidence(row, role, key, proving, taskClass)
  {
    hide Score, ListPerRow, GroupOf, Scoped;
    var scoped := Scoped(rows, proving, taskClass);
    var keys, routes := Keys(scoped, role), Routes(scoped, role, z, sqrt, prior);
    ScopedHas(rows, proving, taskClass);
    if r :| r in routes && r.key == key {
      var i :| 0 <= i < |routes| && routes[i] == r;
      assert keys[i] == key && key in keys;
      var row :| row in scoped && Counted(row, role) && row.key.value == key;
      assert Evidence(row, role, key, proving, taskClass);
    }
    if row :| row in rows && Evidence(row, role, key, proving, taskClass) {
      assert row in scoped && Counted(row, role) && key in keys;
      var i :| 0 <= i < |keys| && keys[i] == key;
      assert routes[i] in routes;
    }
  }

  /** Rows of the role in the scope belong to two task classes. */
  ghost predicate MixedClasses(rows: seq<Row>, role: string, proving: bool, taskClass: Option<string>) {
    exists a, b :: a in rows && b in rows && a.role == role && b.role == role && a.taskClass != b.taskClass
      && a.proving == proving && b.proving == proving && taskClass.None?
  }

  /**
   The local recommendation: none where classes would be mixed or no route has five settled rows; otherwise the cheapest of
   the settled routes whose interval meets that of the best one, ties by rate and then by key.
  */
  lemma RecommendedIs(rows: seq<Row>, role: string, proving: bool, taskClass: Option<string>, z: real, sqrt: real -> real, prior: string -> Option<real>)
    requires z > 0.0 && IsSqrt(sqrt)
    ensures var routes, answer := Routes(Scoped(rows, proving, taskClass), role, z, sqrt, prior), Recommended(rows, role, proving, taskClass, z, sqrt, prior);
      && (answer.Some? <==> !MixedClasses(rows, role, proving, taskClass) && exists r :: r in routes && r.n >= 5)
      && (answer.Some? ==> RecommendedOf(routes, answer.value))
  {
    hide Scoped, Routes, Choice, Score, RecommendedOf, Where;
    var scoped := Scoped(rows, proving, taskClass);
    var routes := Routes(scoped, role, z, sqrt, prior);
    ScopedHas(rows, proving, taskClass);
    RoutesAreFair(scoped, role, z, sqrt, prior);
    OneClassIff(rows, scoped, role, proving, taskClass);
    WhereHas(routes, Eligible);
    if Where(routes, Eligible) != [] {
      assert Where(routes, Eligible)[0] in Where(routes, Eligible);
      ChoiceIs(routes);
    }
  }

  lemma OneClassIff(rows: seq<Row>, scoped: seq<Row>, role: string, proving: bool, taskClass: Option<string>)
    requires forall row :: row in scoped <==> row in rows && row.proving == proving && (taskClass.None? || row.taskClass == taskClass.value)
    ensures OneClass(scoped, role) <==> !MixedClasses(rows, role, proving, taskClass)
  {}
}
