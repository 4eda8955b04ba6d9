/** Chains of related things, and the equivalence they generate. */
module Chains {

  ghost predicate Chain<T(!new)>(rel: (T, T) -> bool, p: seq<T>) {
    forall k :: 0 <= k < |p| - 1 ==> rel(p[k], p[k + 1])
  }

  ghost predicate Joins<T(!new)>(rel: (T, T) -> bool, p: seq<T>, x: T, y: T) {
    p != [] && p[0] == x && p[|p| - 1] == y && Chain(rel, p)
  }

  /** Some chain of related pairs runs from x to y. */
  ghost predicate Linked<T(!new)>(rel: (T, T) -> bool, x: T, y: T) {
    exists p: seq<T> :: Joins(rel, p, x, y)
  }

  ghost predicate Symmetric<T(!new)>(rel: (T, T) -> bool) {
    forall x, y :: rel(x, y) ==> rel(y, x)
  }

  lemma LinkedSelf<T(!new)>(rel: (T, T) -> bool, x: T)
    ensures Linked(rel, x, x)
  {
    assert Joins(rel, [x], x, x);
  }

  lemma LinkedStep<T(!new)>(rel: (T, T) -> bool, x: T, y: T)
    requires rel(x, y)
    ensures Linked(rel, x, y)
  {
    assert Joins(rel, [x, y], x, y);
  }

  lemma ChainAppend<T(!new)>(rel: (T, T) -> bool, p: seq<T>, q: seq<T>)
    requires p != [] && q != [] && Chain(rel, p) && Chain(rel, q) && p[|p| - 1] == q[0]
    ensures Chain(rel, p + q[1..])
  {
    var r := p + q[1..];
    forall k | 0 <= k < |r| - 1 ensures rel(r[k], r[k + 1]) {
      if k >= |p| - 1 {
        assert r[k] == q[k - (|p| - 1)] && r[k + 1] == q[k + 1 - (|p| - 1)];
      }
    }
  }

  lemma LinkedThrough<T(!new)>(rel: (T, T) -> bool, x: T, y: T, z: T)
    requires Linked(rel, x, y) && Linked(rel, y, z)
    ensures Linked(rel, x, z)
  {
    var p: seq<T> :| Joins(rel, p, x, y);
    var q: seq<T> :| Joins(rel, q, y, z);
    ChainAppend(rel, p, q);
    assert Joins(rel, p + q[1..], x, z);
  }

  function Backwards<T>(p: seq<T>): (r: seq<T>)
    ensures |r| == |p| && forall k :: 0 <= k < |p| ==> r[k] == p[|p| - 1 - k]
  {
    seq(|p|, k requires 0 <= k < |p| => p[|p| - 1 - k])
  }

  lemma LinkedBack<T(!new)>(rel: (T, T) -> bool, x: T, y: T)
    requires Symmetric(rel) && Linked(rel, x, y)
    ensures Linked(rel, y, x)
  {
    var p: seq<T> :| Joins(rel, p, x, y);
    var r := Backwards(p);
    forall k | 0 <= k < |r| - 1 ensures rel(r[k], r[k + 1]) {
      assert rel(p[|p| - 2 - k], p[|p| - 1 - k]);
    }
    assert Joins(rel, r, y, x);
  }

  /** A label that related things share is shared along every chain. */
  lemma {:induction false} SharedAlong<T(!new), L>(rel: (T, T) -> bool, p: seq<T>, of: T -> L)
    requires p != [] && Chain(rel, p) && forall x, y :: rel(x, y) ==> of(x) == of(y)
    ensures of(p[0]) == of(p[|p| - 1])
    decreases |p|
  {
    if |p| > 1 {
      assert rel(p[0], p[1]);
      SharedAlong(rel, p[1..], of);
    }
  }

  lemma Shared<T(!new), L>(rel: (T, T) -> bool, x: T, y: T, of: T -> L)
    requires Linked(rel, x, y) && forall x, y :: rel(x, y) ==> of(x) == of(y)
    ensures of(x) == of(y)
  {
    var p: seq<T> :| Joins(rel, p, x, y);
    SharedAlong(rel, p, of);
  }

  /** Chains of one relation are chains of any relation that links its pairs. */
  lemma {:induction false} LinkedWithin<T(!new)>(rel: (T, T) -> bool, wider: (T, T) -> bool, p: seq<T>)
    requires p != [] && Chain(rel, p) && forall x, y :: rel(x, y) ==> Linked(wider, x, y)
    ensures Linked(wider, p[0], p[|p| - 1])
    decreases |p|
  {
    if |p| == 1 {
      LinkedSelf(wider, p[0]);
    } else {
      assert rel(p[0], p[1]);
      LinkedWithin(rel, wider, p[1..]);
      LinkedThrough(wider, p[0], p[1], p[|p| - 1]);
    }
  }
}
