/** A stable comparison sort, as Array.prototype.sort is, and what pins its result down. */
module Sorting {

  /** The comparator of a sort: le(a, b) says that a may stand before b. */
  ghost predicate TotalPreorder<T(!new)>(le: (T, T) -> bool) {
    && (forall a, b :: le(a, b) || le(b, a))
    && (forall a, b, c :: le(a, b) && le(b, c) ==> le(a, c))
  }

  ghost predicate Sorted<T>(s: seq<T>, le: (T, T) -> bool) {
    forall i, j :: 0 <= i < j < |s| ==> le(s[i], s[j])
  }

  function Insert<T>(x: T, s: seq<T>, le: (T, T) -> bool): seq<T> {
    if s == [] || le(x, s[0]) then [x] + s else [s[0]] + Insert(x, s[1..], le)
  }

  /** Equal elements keep their order: each element goes in before the ones that followed it. */
  function Sort<T>(s: seq<T>, le: (T, T) -> bool): seq<T> {
    if s == [] then [] else Insert(s[0], Sort(s[1..], le), le)
  }

  lemma {:induction false} InsertKeeps<T>(x: T, s: seq<T>, le: (T, T) -> bool)
    ensures multiset(Insert(x, s, le)) == multiset([x]) + multiset(s)
    ensures |Insert(x, s, le)| == |s| + 1
  {
    if s != [] && !le(x, s[0]) {
      InsertKeeps(x, s[1..], le);
      assert s == [s[0]] + s[1..];
    }
  }

  lemma {:induction false} InsertSorted<T(!new)>(x: T, s: seq<T>, le: (T, T) -> bool)
    requires TotalPreorder(le) && Sorted(s, le)
    ensures Sorted(Insert(x, s, le), le)
  {
    if s != [] && !le(x, s[0]) {
      InsertSorted(x, s[1..], le);
      InsertKeeps(x, s[1..], le);
      var rest := Insert(x, s[1..], le);
      forall j | 0 <= j < |rest| ensures le(s[0], rest[j]) {
        assert rest[j] in multiset(rest);
        if rest[j] != x {
          assert rest[j] in s[1..];
        }
      }
    }
  }

  /** Sorting loses nothing, repeats nothing, and orders what it is given. */
  lemma {:induction false} SortIsSortedPermutation<T(!new)>(s: seq<T>, le: (T, T) -> bool)
    requires TotalPreorder(le)
    ensures Sorted(Sort(s, le), le)
    ensures multiset(Sort(s, le)) == multiset(s)
    ensures |Sort(s, le)| == |s|
    ensures forall x :: x in Sort(s, le) <==> x in s
  {
    if s != [] {
      SortIsSortedPermutation(s[1..], le);
      InsertSorted(s[0], Sort(s[1..], le), le);
      InsertKeeps(s[0], Sort(s[1..], le), le);
      assert s == [s[0]] + s[1..];
      forall x ensures x in Sort(s, le) <==> x in s {
        assert x in Sort(s, le) <==> x in multiset(Sort(s, le));
        assert x in s <==> x in multiset(s);
      }
    }
  }

  ghost predicate DistinctBy<T>(s: seq<T>, key: T -> int) {
    forall i, j :: 0 <= i < j < |s| ==> key(s[i]) != key(s[j])
  }

  lemma {:induction false} InsertDistinct<T(!new)>(x: T, s: seq<T>, le: (T, T) -> bool, key: T -> int)
    requires DistinctBy(s, key) && forall y :: y in s ==> key(y) != key(x)
    ensures DistinctBy(Insert(x, s, le), key)
  {
    if s != [] && !le(x, s[0]) {
      InsertDistinct(x, s[1..], le, key);
      InsertKeeps(x, s[1..], le);
      var rest := Insert(x, s[1..], le);
      forall j | 0 <= j < |rest| ensures key(rest[j]) != key(s[0]) {
        assert rest[j] in multiset(rest);
        if rest[j] != x {
          assert rest[j] in s[1..];
        }
      }
    }
  }

  lemma {:induction false} SortDistinct<T(!new)>(s: seq<T>, le: (T, T) -> bool, key: T -> int)
    requires TotalPreorder(le) && DistinctBy(s, key)
    ensures DistinctBy(Sort(s, le), key)
  {
    if s != [] {
      SortDistinct(s[1..], le, key);
      SortIsSortedPermutation(s[1..], le);
      InsertDistinct(s[0], Sort(s[1..], le), le, key);
    }
  }

  ghost predicate StrictlyIncreasing<T>(s: seq<T>, key: T -> int) {
    forall i, j :: 0 <= i < j < |s| ==> key(s[i]) < key(s[j])
  }

  /** A strictly increasing sequence is determined by the set of its elements. */
  lemma {:induction false} StrictOrderIsUnique<T>(s: seq<T>, t: seq<T>, key: T -> int)
    requires StrictlyIncreasing(s, key) && StrictlyIncreasing(t, key)
    requires forall x :: x in s <==> x in t
    ensures s == t
  {
    if |s| > 0 { assert s[0] in t; }
    if |t| > 0 { assert t[0] in s; }
    if s != [] {
      assert s[0] == t[0];
      forall x ensures x in s[1..] <==> x in t[1..] {
        if x in s[1..] {
          var i :| 1 <= i < |s| && s[i] == x;
          assert x in t && x != t[0];
        }
        if x in t[1..] {
          var i :| 1 <= i < |t| && t[i] == x;
          assert x in s && x != s[0];
        }
      }
      StrictOrderIsUnique(s[1..], t[1..], key);
      assert s == [s[0]] + s[1..] && t == [t[0]] + t[1..];
    }
  }

  lemma HeadOut<T>(s: seq<T>)
    requires s != []
    ensures multiset(s[1..]) == multiset(s) - multiset{s[0]}
  {
    assert s == [s[0]] + s[1..];
  }

  lemma SortedHead<T>(s: seq<T>, x: T, le: (T, T) -> bool)
    requires Sorted(s, le) && x in s
    ensures x == s[0] || le(s[0], x)
  {}

  /** Where no two elements tie, sorting has only one answer. */
  lemma {:induction false} SortedIsUnique<T>(s: seq<T>, t: seq<T>, le: (T, T) -> bool)
    requires Sorted(s, le) && Sorted(t, le) && multiset(s) == multiset(t)
    requires forall a, b :: a in s && b in s && le(a, b) && le(b, a) ==> a == b
    ensures s == t
  {
    assert |multiset(s)| == |s| && |multiset(t)| == |t|;
    if s != [] {
      assert s[0] in multiset(t) && t[0] in multiset(s);
      SortedHead(t, s[0], le);
      SortedHead(s, t[0], le);
      HeadOut(s);
      HeadOut(t);
      forall a | a in s[1..] ensures a in s {}
      SortedIsUnique(s[1..], t[1..], le);
      assert s == [s[0]] + s[1..] && t == [t[0]] + t[1..];
    }
  }
}
