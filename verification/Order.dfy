/** Strings in code order, and the sorted listing of a set of them. */
module Order {
  import opened Sorting

  predicate Less(a: string, b: string) {
    b != "" && (a == "" || a[0] < b[0] || (a[0] == b[0] && Less(a[1..], b[1..])))
  }

  predicate AtMost(a: string, b: string) {
    a == b || Less(a, b)
  }

  lemma {:induction false} Irreflexive(a: string)
    ensures !Less(a, a)
  {
    if a != "" { Irreflexive(a[1..]); }
  }

  lemma {:induction false} Transitive(a: string, b: string, c: string)
    requires Less(a, b) && Less(b, c)
    ensures Less(a, c)
  {
    if a != "" && a[0] == b[0] && b[0] == c[0] { Transitive(a[1..], b[1..], c[1..]); }
  }

  lemma {:induction false} Connected(a: string, b: string)
    ensures a == b || Less(a, b) || Less(b, a)
  {
    if a != "" && b != "" && a[0] == b[0] {
      Connected(a[1..], b[1..]);
      assert a == [a[0]] + a[1..] && b == [b[0]] + b[1..];
    }
  }

  lemma Asymmetric(a: string, b: string)
    requires Less(a, b)
    ensures !Less(b, a) && a != b
  {
    Irreflexive(a);
    if Less(b, a) { Transitive(a, b, a); }
  }

  ghost predicate IsLeast(m: string, s: set<string>) {
    m in s && forall x :: x in s ==> AtMost(m, x)
  }

  lemma LeastIsUnique(m: string, n: string, s: set<string>)
    requires IsLeast(m, s) && IsLeast(n, s)
    ensures m == n
  {
    if m != n { Asymmetric(m, n); }
  }

  lemma {:induction false} LeastExists(s: set<string>)
    requires s != {}
    ensures exists m :: IsLeast(m, s)
    decreases |s|
  {
    var m :| m in s;
    if s == {m} {
      assert IsLeast(m, s);
    } else {
      var rest := s - {m};
      assert |rest| < |s|;
      LeastExists(rest);
      var n :| IsLeast(n, rest);
      Connected(m, n);
      if Less(n, m) {
        assert IsLeast(n, s);
      } else {
        forall x | x in s ensures AtMost(m, x) {
          if x != m && m != n && x != n {
            assert x in rest && AtMost(n, x);
            Transitive(m, n, x);
          }
        }
        assert IsLeast(m, s);
      }
    }
  }

  /** The least member of a set: the key a cluster is named by. */
  ghost function Least(s: set<string>): (m: string)
    requires s != {}
    ensures IsLeast(m, s)
  {
    LeastExists(s);
    var m :| IsLeast(m, s);
    m
  }

  // ----- sorted listings

  ghost predicate Ascending(s: seq<string>) {
    forall i, j :: 0 <= i < j < |s| ==> Less(s[i], s[j])
  }

  /** s lists the set exactly once each, in code order. */
  ghost predicate Lists(s: seq<string>, all: set<string>) {
    Ascending(s) && forall x :: x in s <==> x in all
  }

  lemma AtMostIsTotal()
    ensures TotalPreorder(AtMost)
  {
    forall a, b ensures AtMost(a, b) || AtMost(b, a) { Connected(a, b); }
    forall a, b, c | AtMost(a, b) && AtMost(b, c) ensures AtMost(a, c) {
      if a != b && b != c { Transitive(a, b, c); }
    }
  }

  lemma DistinctLonger(s: seq<string>, x: string)
    requires Distinct(s) && x !in s
    ensures Distinct(s + [x]) && forall y :: y in s + [x] <==> y in s || y == x
  {}

  /** [...new Set(keys)].sort(): each key once, in code order. */
  method SortedKeys(all: set<string>) returns (r: seq<string>)
    ensures Lists(r, all)
  {
    var rest, found := all, [];
    while rest != {}
      invariant rest <= all
      invariant forall x :: x in found <==> x in all - rest
      invariant Distinct(found)
      decreases |rest|
    {
      var x :| x in rest;
      rest := rest - {x};
      DistinctLonger(found, x);
      found := found + [x];
    }
    r := Sort(found, AtMost);
    AtMostIsTotal();
    SortIsSortedPermutation(found, AtMost);
    StaysDistinct(found);
    forall i, j | 0 <= i < j < |r| ensures Less(r[i], r[j]) {
      assert AtMost(r[i], r[j]);
    }
  }

  ghost predicate Distinct(s: seq<string>) {
    forall i, j :: 0 <= i < j < |s| ==> s[i] != s[j]
  }

  lemma {:induction false} StaysDistinct(s: seq<string>)
    requires Distinct(s)
    ensures Distinct(Sort(s, AtMost))
  {
    if s == [] {
      assert Sort(s, AtMost) == [];
    } else {
      StaysDistinct(s[1..]);
      AtMostIsTotal();
      SortIsSortedPermutation(s[1..], AtMost);
      assert s[0] !in s[1..];
      InsertFresh(s[0], Sort(s[1..], AtMost));
      assert Distinct(Sort(s, AtMost));
    }
  }

  lemma {:induction false} InsertFresh(x: string, s: seq<string>)
    requires x !in s && Distinct(s)
    ensures Distinct(Insert(x, s, AtMost))
  {
    if s != [] && !AtMost(x, s[0]) {
      InsertFresh(x, s[1..]);
      InsertKeeps(x, s[1..], AtMost);
      var rest := Insert(x, s[1..], AtMost);
      forall j | 0 <= j < |rest| ensures rest[j] != s[0] {
        assert rest[j] in multiset(rest);
        if rest[j] != x { assert rest[j] in s[1..]; }
      }
    }
  }
}
