/** Editing a text through spans: what a closure writes, and the check that nothing else moved. */
module Splice {
  import opened Text
  import opened Sorting

  /** Replace [start, end) by value. As a span of a text, value is what the span holds. */
  datatype Edit = Edit(start: nat, end: nat, value: string)

  /** Left to right, in bounds, and at least one character apart. */
  predicate Apart(edits: seq<Edit>, from: nat, n: nat) {
    edits == [] ||
    (from <= edits[0].start <= edits[0].end <= n && Apart(edits[1..], edits[0].end + 1, n))
  }

  function Values(edits: seq<Edit>): (v: seq<string>)
    ensures |v| == |edits| && forall i :: 0 <= i < |v| ==> v[i] == edits[i].value
  {
    seq(|edits|, i requires 0 <= i < |edits| => edits[i].value)
  }

  /** The immutable segments: what stands before, between and after the spans. */
  function Gaps(text: string, edits: seq<Edit>, from: nat): (g: seq<string>)
    ensures |g| == |edits| + 1
  {
    if edits == [] then [Slice(text, from, |text|)]
    else [Slice(text, from, edits[0].start)] + Gaps(text, edits[1..], edits[0].end)
  }

  function Weave(gaps: seq<string>, values: seq<string>): string
    requires |gaps| == |values| + 1
  {
    if values == [] then gaps[0] else gaps[0] + values[0] + Weave(gaps[1..], values[1..])
  }

  /** One left-to-right pass from `from`: every segment kept, every span given its new value. */
  function Rendered(text: string, edits: seq<Edit>, from: nat): string {
    if edits == [] then Slice(text, from, |text|)
    else Slice(text, from, edits[0].start) + edits[0].value + Rendered(text, edits[1..], edits[0].end)
  }

  function Spliced(text: string, edits: seq<Edit>): string {
    Rendered(text, edits, 0)
  }

  lemma {:induction false} RenderedIsWoven(text: string, edits: seq<Edit>, from: nat)
    ensures Rendered(text, edits, from) == Weave(Gaps(text, edits, from), Values(edits))
  {
    if edits != [] {
      RenderedIsWoven(text, edits[1..], edits[0].end);
      assert Values(edits)[1..] == Values(edits[1..]);
    }
  }

  /** Each span's value is the text it covers. */
  ghost predicate Own(text: string, spans: seq<Edit>) {
    forall i :: 0 <= i < |spans| ==>
      spans[i].start <= spans[i].end <= |text| && spans[i].value == text[spans[i].start..spans[i].end]
  }

  /** Where the values land when segments and values are woven from position `from`. */
  function Placed(gaps: seq<string>, values: seq<string>, from: nat): (p: seq<Edit>)
    requires |gaps| == |values| + 1
    ensures |p| == |values|
  {
    if values == [] then []
    else
      var start := from + |gaps[0]|;
      [Edit(start, start + |values[0]|, values[0])] + Placed(gaps[1..], values[1..], start + |values[0]|)
  }

  // ----- the segment comparison

  /** sameOutsideValues: two cursors walk both texts, span by span. */
  method SameOutsideValues(left: string, right: string, before: seq<Edit>, after: seq<Edit>) returns (same: bool)
    ensures same <==> Gaps(left, before, 0) == Gaps(right, after, 0)
  {
    if |before| != |after| { return false; }
    var a, b := 0, 0;
    for index := 0 to |before|
      invariant Gaps(left, before, 0) == Gaps(right, after, 0) <==>
                Gaps(left, before[index..], a) == Gaps(right, after[index..], b)
    {
      var was, next := before[index], after[index];
      assert before[index..][1..] == before[index + 1..] && after[index..][1..] == after[index + 1..];
      assert Gaps(left, before[index..], a)[0] == Slice(left, a, was.start);
      assert Gaps(right, after[index..], b)[0] == Slice(right, b, next.start);
      assert Gaps(left, before[index..], a)[1..] == Gaps(left, before[index + 1..], was.end);
      assert Gaps(right, after[index..], b)[1..] == Gaps(right, after[index + 1..], next.end);
      if Slice(left, a, was.start) != Slice(right, b, next.start) { return false; }
      a := was.end;
      b := next.end;
    }
    assert before[|before|..] == [] && after[|before|..] == [];
    assert Gaps(left, [], a)[0] == Slice(left, a, |left|);
    same := Slice(left, a, |left|) == Slice(right, b, |right|);
  }

  /** A span that holds what it covers renders to what was there. */
  lemma {:induction false} RenderedOwn(text: string, spans: seq<Edit>, from: nat)
    requires from <= |text| && Apart(spans, from, |text|) && Own(text, spans)
    ensures Rendered(text, spans, from) == text[from..]
  {
    if spans != [] {
      var s := spans[0];
      assert Own(text, spans[1..]);
      ApartFrom(spans[1..], s.end + 1, s.end, |text|);
      RenderedOwn(text, spans[1..], s.end);
      assert text[from..] == text[from..s.start] + text[s.start..s.end] + text[s.end..];
    }
  }

  lemma {:induction false} PlacedOwn(text: string, spans: seq<Edit>, from: nat)
    requires from <= |text| && Apart(spans, from, |text|) && Own(text, spans)
    ensures Placed(Gaps(text, spans, from), Values(spans), from) == spans
  {
    if spans != [] {
      var s := spans[0];
      assert Own(text, spans[1..]);
      ApartFrom(spans[1..], s.end + 1, s.end, |text|);
      PlacedOwn(text, spans[1..], s.end);
      assert Values(spans)[1..] == Values(spans[1..]);
      assert spans == [s] + spans[1..];
    }
  }

  lemma ValuesCons(e: Edit, rest: seq<Edit>)
    ensures Values([e] + rest) == [e.value] + Values(rest)
  {
    assert ([e] + rest)[1..] == rest;
  }

  lemma {:induction false} PlacedValues(gaps: seq<string>, values: seq<string>, from: nat)
    requires |gaps| == |values| + 1
    ensures Values(Placed(gaps, values, from)) == values
    decreases |values|
  {
    if values != [] {
      var start := from + |gaps[0]|;
      var rest := Placed(gaps[1..], values[1..], start + |values[0]|);
      PlacedValues(gaps[1..], values[1..], start + |values[0]|);
      ValuesCons(Edit(start, start + |values[0]|, values[0]), rest);
      assert [values[0]] + values[1..] == values;
    }
  }

  lemma {:induction false} GapsOfPlaced(prefix: string, gaps: seq<string>, values: seq<string>)
    requires |gaps| == |values| + 1
    ensures Gaps(prefix + Weave(gaps, values), Placed(gaps, values, |prefix|), |prefix|) == gaps
    decreases |values|
  {
    var text := prefix + Weave(gaps, values);
    if values == [] {
      assert Slice(text, |prefix|, |text|) == gaps[0];
      assert gaps == [gaps[0]];
    } else {
      var p1 := prefix + gaps[0] + values[0];
      var rest := Weave(gaps[1..], values[1..]);
      assert text == p1 + rest;
      GapsOfPlaced(p1, gaps[1..], values[1..]);
      assert |p1| == |prefix| + |gaps[0]| + |values[0]|;
      assert Slice(text, |prefix|, |prefix| + |gaps[0]|) == gaps[0];
      assert gaps == [gaps[0]] + gaps[1..];
    }
  }

  /** The check is exact: it holds iff right is left with only its span values replaced,
      and right's spans sit where those replacements put them. */
  lemma SameOutsideIff(left: string, right: string, before: seq<Edit>, after: seq<Edit>)
    requires Apart(after, 0, |right|) && Own(right, after)
    ensures Gaps(left, before, 0) == Gaps(right, after, 0) <==>
            && |before| == |after|
            && right == Weave(Gaps(left, before, 0), Values(after))
            && after == Placed(Gaps(left, before, 0), Values(after), 0)
  {
    var gaps, values := Gaps(left, before, 0), Values(after);
    if gaps == Gaps(right, after, 0) {
      RenderedOwn(right, after, 0);
      RenderedIsWoven(right, after, 0);
      PlacedOwn(right, after, 0);
      assert right[0..] == right;
    } else if |before| == |after| {
      GapsOfPlaced("", gaps, values);
      assert "" + Weave(gaps, values) == Weave(gaps, values);
    }
  }

  // ----- writing right to left

  function Put(text: string, e: Edit): string {
    Slice(text, 0, e.start) + e.value + Slice(text, e.end, |text|)
  }

  function PutAll(text: string, edits: seq<Edit>): string
    decreases |edits|
  {
    if edits == [] then text else PutAll(Put(text, edits[0]), edits[1..])
  }

  /** Writing one span twice, with `first` and then with e's value, is writing e's value alone iff `first` is as long as what
      the span held: the second write still uses the first text's positions. Two proposed tickets naming one task write
      each of its rows twice. */
  lemma WrittenTwice(text: string, e: Edit, first: string)
    requires e.start <= e.end < |text|
    ensures Put(Put(text, e.(value := first)), e) == Put(text, e) <==> |first| == e.end - e.start
  {
    var once, tail := Put(text, e.(value := first)), text[e.end..];
    assert once == text[..e.start] + first + tail;
    assert Slice(once, 0, e.start) == text[..e.start];
    var twice, alone := Put(once, e), Put(text, e);
    if |first| == e.end - e.start {
      assert Slice(once, e.end, |once|) == tail;
    } else {
      assert |Slice(once, e.end, |once|)| != |tail|;
      assert |twice| != |alone|;
    }
  }

  function Descending(): (Edit, Edit) -> bool {
    (a: Edit, b: Edit) => b.start <= a.start
  }

  function StartOf(): Edit -> int {
    (e: Edit) => e.start
  }

  /** substitute: the edits are applied from the last to the first, each on the text so far. */
  method Substitute(text: string, edits: seq<Edit>) returns (r: string)
    ensures r == PutAll(text, Sort(edits, Descending()))
  {
    var spans := Sort(edits, Descending());
    r := text;
    for i := 0 to |spans|
      invariant PutAll(r, spans[i..]) == PutAll(text, spans)
    {
      assert spans[i..][1..] == spans[i + 1..];
      r := Put(r, spans[i]);
    }
  }

  function Reversed(edits: seq<Edit>): (r: seq<Edit>)
    ensures |r| == |edits| && forall i :: 0 <= i < |r| ==> r[i] == edits[|edits| - 1 - i]
  {
    if edits == [] then [] else Reversed(edits[1..]) + [edits[0]]
  }

  lemma {:induction false} PutAllThen(text: string, edits: seq<Edit>, last: Edit)
    ensures PutAll(text, edits + [last]) == Put(PutAll(text, edits), last)
    decreases |edits|
  {
    if edits != [] {
      assert (edits + [last])[1..] == edits[1..] + [last];
      PutAllThen(Put(text, edits[0]), edits[1..], last);
    } else {
      assert ([] + [last])[1..] == [];
    }
  }

  lemma Regrouped(a: string, b: string, c: string, d: string)
    ensures (a + b) + c + d == a + (b + c + d)
  {}

  lemma TailFrom(text: string, from: nat, p: nat)
    requires from <= p <= |text|
    ensures Slice(text, from, |text|) == text[from..p] + Slice(text, p, |text|)
  {
    assert text[from..] == text[from..p] + text[p..];
  }

  lemma MiddleFrom(text: string, from: nat, p: nat, to: nat)
    requires from <= p <= to <= |text|
    ensures Slice(text, from, to) == text[from..p] + Slice(text, p, to)
  {
    assert text[from..to] == text[from..p] + text[p..to];
  }

  lemma RenderedFrom(text: string, edits: seq<Edit>, from: nat, p: nat)
    requires from <= p <= |text| && Apart(edits, p, |text|)
    ensures Rendered(text, edits, from) == text[from..p] + Rendered(text, edits, p)
  {
    hide Slice;
    if edits == [] {
      TailFrom(text, from, p);
    } else {
      var e := edits[0];
      MiddleFrom(text, from, p, e.start);
      Regrouped(text[from..p], Slice(text, p, e.start), e.value, Rendered(text, edits[1..], e.end));
    }
  }

  lemma {:induction false} RightToLeft(text: string, edits: seq<Edit>, from: nat)
    requires Apart(edits, from, |text|)
    ensures PutAll(text, Reversed(edits)) == Spliced(text, edits)
  {
    if edits == [] {
    } else {
      var e, rest := edits[0], edits[1..];
      RightToLeft(text, rest, e.end + 1);
      PutAllThen(text, Reversed(rest), e);
      ApartFrom(rest, e.end + 1, e.end, |text|);
      RenderedFrom(text, rest, 0, e.end);
      PutInto(text, text[..e.end], Rendered(text, rest, e.end), e);
    }
  }

  lemma PutInto(text: string, head: string, tail: string, e: Edit)
    requires e.start <= e.end <= |text| && head == text[..e.end]
    ensures Put(head + tail, e) == text[..e.start] + e.value + tail
  {
    assert (head + tail)[..e.start] == text[..e.start];
    assert (head + tail)[e.end..] == tail;
  }

  lemma {:induction false} ApartStarts(edits: seq<Edit>, from: nat, n: nat)
    requires Apart(edits, from, n)
    ensures forall i :: 0 <= i < |edits| ==> from <= edits[i].start <= edits[i].end <= n
    ensures forall i, j :: 0 <= i < j < |edits| ==> edits[i].end < edits[j].start
  {
    if edits != [] {
      ApartStarts(edits[1..], edits[0].end + 1, n);
      forall i, j | 0 <= i < j < |edits| ensures edits[i].end < edits[j].start {
        assert edits[j] == edits[1..][j - 1];
        if i > 0 { assert edits[i] == edits[1..][i - 1]; }
      }
    }
  }

  /** The right-to-left loop over edits given in any order is the one left-to-right splice. */
  lemma SubstituteIsSplice(text: string, edits: seq<Edit>, ascending: seq<Edit>)
    requires Apart(ascending, 0, |text|)
    requires forall e :: e in edits <==> e in ascending
    requires DistinctBy(edits, StartOf())
    ensures PutAll(text, Sort(edits, Descending())) == Spliced(text, ascending)
  {
    var key := StartOf();
    var back: Edit -> int := (e: Edit) => -(e.start as int);
    var sorted := Sort(edits, Descending());
    SortIsSortedPermutation(edits, Descending());
    SortDistinct(edits, Descending(), key);
    ApartStarts(ascending, 0, |text|);
    var reversed := Reversed(ascending);
    forall i, j | 0 <= i < j < |sorted| ensures back(sorted[i]) < back(sorted[j]) {
      assert Descending()(sorted[i], sorted[j]);
      assert key(sorted[i]) != key(sorted[j]);
    }
    forall i, j | 0 <= i < j < |reversed| ensures back(reversed[i]) < back(reversed[j]) {
      assert reversed[i] == ascending[|ascending| - 1 - i] && reversed[j] == ascending[|ascending| - 1 - j];
    }
    forall e ensures e in sorted <==> e in reversed {
      if e in ascending {
        var k :| 0 <= k < |ascending| && ascending[k] == e;
        assert reversed[|ascending| - 1 - k] == e;
      }
    }
    StrictOrderIsUnique(sorted, reversed, back);
    RightToLeft(text, ascending, 0);
  }

  // ----- edits of some spans, read as edits of all

  function Picked(spans: seq<Edit>, values: map<nat, string>): seq<Edit> {
    if spans == [] then []
    else if spans[0].start in values then [spans[0].(value := values[spans[0].start])] + Picked(spans[1..], values)
    else Picked(spans[1..], values)
  }

  function Revalued(spans: seq<Edit>, values: map<nat, string>): (r: seq<Edit>)
    ensures |r| == |spans|
    ensures forall i :: 0 <= i < |r| ==>
      r[i] == if spans[i].start in values then spans[i].(value := values[spans[i].start]) else spans[i]
  {
    if spans == [] then []
    else [if spans[0].start in values then spans[0].(value := values[spans[0].start]) else spans[0]] + Revalued(spans[1..], values)
  }

  lemma {:induction false} PickedApart(spans: seq<Edit>, values: map<nat, string>, from: nat, n: nat)
    requires Apart(spans, from, n)
    ensures Apart(Picked(spans, values), from, n)
  {
    if spans != [] {
      PickedApart(spans[1..], values, spans[0].end + 1, n);
      ApartFrom(Picked(spans[1..], values), spans[0].end + 1, from, n);
    }
  }

  lemma ApartFrom(spans: seq<Edit>, from: nat, lower: nat, n: nat)
    requires Apart(spans, from, n) && lower <= from
    ensures Apart(spans, lower, n)
  {}

  /** Writing only some spans is writing all of them, the others with what they already hold. */
  lemma {:induction false} PickedIsRevalued(text: string, spans: seq<Edit>, values: map<nat, string>, from: nat)
    requires from <= |text| && Apart(spans, from, |text|) && Own(text, spans)
    ensures Rendered(text, Picked(spans, values), from) == Rendered(text, Revalued(spans, values), from)
  {
    if spans != [] {
      var s, rest := spans[0], spans[1..];
      assert Own(text, rest);
      ApartFrom(rest, s.end + 1, s.end, |text|);
      PickedIsRevalued(text, rest, values, s.end);
      assert Revalued(spans, values)[1..] == Revalued(rest, values);
      if s.start in values {
        assert Picked(spans, values)[1..] == Picked(rest, values);
      } else {
        PickedApart(rest, values, s.end, |text|);
        RenderedFrom(text, Picked(rest, values), from, s.end);
        assert text[from..s.end] == text[from..s.start] + s.value;
      }
    }
  }
}
