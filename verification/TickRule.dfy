/** Which ticks of an axis are labelled, told by their places alone. */
module TickRule {
  import opened ChartLabels

  /** At least the gap lies between where two ticks stand on the axis. */
  ghost predicate Apart(a: real, b: real, scale: real -> real, gap: real) {
    scale(a) - scale(b) >= gap || scale(b) - scale(a) >= gap
  }

  lemma FarIff(a: real, b: real, scale: real -> real, gap: real)
    ensures Far(a, b, scale, gap) <==> Apart(a, b, scale, gap)
  {}

  /** The tick at place m is too near the last one kept at or before it. */
  ghost predicate Crowded(ticks: seq<real>, kept: seq<int>, m: int, scale: real -> real, gap: real) {
    exists i :: 0 <= i < |kept| && Before(ticks, kept, i, m) && !Apart(ticks[m], ticks[kept[i]], scale, gap)
  }

  /** The i-th kept tick is the last one kept before place m. */
  ghost predicate Before(ticks: seq<real>, kept: seq<int>, i: int, m: int) {
    0 <= i < |kept| && 0 <= kept[i] < m < |ticks| && (i + 1 < |kept| ==> m < kept[i + 1])
  }

  ghost predicate Follows(ticks: seq<real>, kept: seq<int>, i: int, scale: real -> real, gap: real) {
    0 < i < |kept| ==> 0 <= kept[i - 1] < kept[i] < |ticks| && Apart(ticks[kept[i]], ticks[kept[i - 1]], scale, gap)
  }

  /**
   Going forward over the first n ticks: the first is kept, each kept one is the gap away from the kept one before it, and each
   one that is not kept is nearer than that to the last one kept before it.
  */
  ghost predicate Forward(ticks: seq<real>, n: int, kept: seq<int>, scale: real -> real, gap: real) {
    && 0 < n <= |ticks| && kept != [] && kept[0] == 0 && (forall i :: 0 <= i < |kept| ==> 0 <= kept[i] < n)
    && (forall i :: 0 < i < |kept| ==> Follows(ticks, kept, i, scale, gap))
    && forall m :: 0 <= m < n && m !in kept ==> Crowded(ticks, kept, m, scale, gap)
  }

  ghost function At(ticks: seq<real>, kept: seq<int>): seq<real>
    requires forall i :: 0 <= i < |kept| ==> 0 <= kept[i] < |ticks|
  {
    seq(|kept|, i requires 0 <= i < |kept| => ticks[kept[i]])
  }

  lemma {:induction false} KeptForward(ticks: seq<real>, n: nat, scale: real -> real, gap: real) returns (kept: seq<int>)
    requires 0 < n <= |ticks|
    ensures Forward(ticks, n, kept, scale, gap) && Kept(ticks[..n], scale, gap) == At(ticks, kept)
  {
    hide Far, Apart;
    if n == 1 {
      kept := [0];
      assert Kept(ticks[..1], scale, gap) == [ticks[0]] == At(ticks, kept);
    } else {
      var before := KeptForward(ticks, n - 1, scale, gap);
      assert ticks[..n][..n - 1] == ticks[..n - 1];
      var last := |before| - 1;
      FarIff(ticks[n - 1], ticks[before[last]], scale, gap);
      LastIsBefore(ticks, n - 1, before, scale, gap);
      if Far(ticks[n - 1], ticks[before[last]], scale, gap) {
        kept := before + [n - 1];
        assert At(ticks, kept) == At(ticks, before) + [ticks[n - 1]];
        Extended(ticks, n, before, scale, gap);
      } else {
        kept := before;
        assert Crowded(ticks, kept, n - 1, scale, gap);
      }
    }
  }

  lemma LastIsBefore(ticks: seq<real>, n: int, kept: seq<int>, scale: real -> real, gap: real)
    requires 0 < n < |ticks| && Forward(ticks, n, kept, scale, gap)
    ensures Before(ticks, kept, |kept| - 1, n) && n !in kept
  {}

  lemma Extended(ticks: seq<real>, n: int, kept: seq<int>, scale: real -> real, gap: real)
    requires 1 < n <= |ticks| && Forward(ticks, n - 1, kept, scale, gap) && Apart(ticks[n - 1], ticks[kept[|kept| - 1]], scale, gap)
    ensures Forward(ticks, n, kept + [n - 1], scale, gap)
  {
    hide Apart;
    var more := kept + [n - 1];
    forall i | 0 < i < |more| ensures Follows(ticks, more, i, scale, gap) {
      if i < |kept| { assert Follows(ticks, kept, i, scale, gap) && more[i] == kept[i] && more[i - 1] == kept[i - 1]; }
    }
    forall m | 0 <= m < n && m !in more ensures Crowded(ticks, more, m, scale, gap) {
      assert m !in kept && m != n - 1;
      var i :| 0 <= i < |kept| && Before(ticks, kept, i, m) && !Apart(ticks[m], ticks[kept[i]], scale, gap);
      assert Before(ticks, more, i, m) && more[i] == kept[i];
    }
  }

  /**
   What thinning shows. Two ticks or fewer are all shown. Of more, the first and the last always are; those between are first
   kept going forward, and then the kept ones nearest the end are dropped for as long as they crowd the last tick.
  */
  lemma TicksAre(ticks: seq<real>, scale: real -> real, gap: real) returns (kept: seq<int>, k: nat)
    ensures |ticks| <= 2 ==> Thinned(ticks, scale, gap) == ticks
    ensures |ticks| > 2 ==>
      (var n := |ticks| - 1;
       && Forward(ticks, n, kept, scale, gap) && 1 <= k <= |kept|
       && Thinned(ticks, scale, gap) == At(ticks, kept[..k]) + [ticks[n]]
       && (forall i :: k <= i < |kept| ==> !Apart(ticks[n], ticks[kept[i]], scale, gap))
       && (k == 1 || Apart(ticks[n], ticks[kept[k - 1]], scale, gap)))
  {
    hide Far, Apart, Trim, Kept;
    kept, k := [], 0;
    if |ticks| > 2 {
      var n := |ticks| - 1;
      kept := KeptForward(ticks, n, scale, gap);
      var all := Kept(ticks[..n], scale, gap);
      var trimmed := Trim(all, ticks[n], scale, gap);
      k := |trimmed|;
      assert trimmed == all[..k] == At(ticks, kept[..k]);
      forall i | k <= i < |kept| ensures !Apart(ticks[n], ticks[kept[i]], scale, gap) {
        assert all[i] == ticks[kept[i]];
        FarIff(ticks[n], all[i], scale, gap);
      }
      FarIff(ticks[n], ticks[kept[k - 1]], scale, gap);
    }
  }
}
