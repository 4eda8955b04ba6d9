/** Chart labels placed greedily without touching each other, and axis ticks thinned. */
module ChartLabels {
  import opened Text
  import opened Sorting
  import opened Order

  datatype Rect = Rect(x: real, y: real, width: real, height: real)
  datatype Anchor = AtStart | AtEnd
  datatype Request = Request(id: string, x: real, y: real, text: string, lines: Option<nat>, priority: real)
  datatype Label = Label(id: string, x: real, y: real, anchor: Anchor, box: Rect)
  datatype Options = Options(charWidth: real, lineHeight: real, gap: real, avoid: seq<Rect>)

  predicate Intersects(a: Rect, b: Rect) {
    a.x < b.x + b.width && b.x < a.x + a.width && a.y < b.y + b.height && b.y < a.y + a.height
  }

  predicate Inside(box: Rect, bounds: Rect) {
    && box.x >= bounds.x && box.y >= bounds.y
    && box.x + box.width <= bounds.x + bounds.width && box.y + box.height <= bounds.y + bounds.height
  }

  predicate Covers(r: Rect, x: real, y: real) {
    r.x < x < r.x + r.width && r.y < y < r.y + r.height
  }

  /** Two rectangles with area intersect exactly when some point lies strictly inside both. */
  lemma IntersectsIffOverlap(a: Rect, b: Rect)
    requires a.width > 0.0 && a.height > 0.0 && b.width > 0.0 && b.height > 0.0
    ensures Intersects(a, b) <==> exists x, y :: Covers(a, x, y) && Covers(b, x, y)
  {
    if Intersects(a, b) {
      var x := (Higher(a.x, b.x) + Lower(a.x + a.width, b.x + b.width)) / 2.0;
      var y := (Higher(a.y, b.y) + Lower(a.y + a.height, b.y + b.height)) / 2.0;
      assert Covers(a, x, y) && Covers(b, x, y);
    }
  }

  function Higher(a: real, b: real): real { if a < b then b else a }
  function Lower(a: real, b: real): real { if a < b then a else b }

  // ----- the fourteen candidates

  function Width(q: Request, o: Options): real { |q.text| as real * o.charWidth }
  function Height(q: Request, o: Options): real { o.lineHeight * (if q.lines.Some? then q.lines.value else 1) as real }

  function Shifts(height: real): (s: seq<real>)
    ensures |s| == 7
  {
    [0.0, -height, height, -height * 2.0, height * 2.0, -height * 3.0, height * 3.0]
  }

  function Candidate(q: Request, o: Options, shift: real, anchor: Anchor): Label {
    var x := if anchor.AtStart? then q.x + o.gap else q.x - o.gap;
    var y := q.y + o.lineHeight * 0.34 + shift;
    Label(q.id, x, y, anchor, Rect(if anchor.AtStart? then x else x - Width(q, o), y - o.lineHeight * 0.72, Width(q, o), Height(q, o)))
  }

  /** Right then left, on the mark's own line first and then further above and below. */
  function Candidates(q: Request, o: Options): (c: seq<Label>)
    ensures |c| == 14
    ensures forall k :: 0 <= k < 7 ==> c[2 * k] == Candidate(q, o, Shifts(Height(q, o))[k], AtStart) && c[2 * k + 1] == Candidate(q, o, Shifts(Height(q, o))[k], AtEnd)
  {
    seq(14, k requires 0 <= k < 14 => Candidate(q, o, Shifts(Height(q, o))[k / 2], if k % 2 == 0 then AtStart else AtEnd))
  }

  /** No candidate lies over its own mark: each keeps the gap from it on one side. */
  lemma CandidatesClearTheMark(q: Request, o: Options, k: nat)
    requires k < 14
    ensures var c := Candidates(q, o)[k]; c.id == q.id && (c.box.x == q.x + o.gap || c.box.x + c.box.width == q.x - o.gap)
  {
    assert k == 2 * (k / 2) || k == 2 * (k / 2) + 1;
  }

  predicate Hits(taken: seq<Rect>, box: Rect) {
    exists i :: 0 <= i < |taken| && Intersects(taken[i], box)
  }

  predicate Free(c: Label, bounds: Rect, taken: seq<Rect>) {
    Inside(c.box, bounds) && !Hits(taken, c.box)
  }

  predicate FirstFreeAt(cs: seq<Label>, bounds: Rect, taken: seq<Rect>, k: int) {
    0 <= k < |cs| && Free(cs[k], bounds, taken) && forall m :: 0 <= m < k ==> !Free(cs[m], bounds, taken)
  }

  /** The first free candidate, if any is free. */
  function FirstFree(cs: seq<Label>, bounds: Rect, taken: seq<Rect>): (c: Option<Label>)
    ensures c.None? ==> forall k :: 0 <= k < |cs| ==> !Free(cs[k], bounds, taken)
    ensures c.Some? ==> exists k :: FirstFreeAt(cs, bounds, taken, k) && c.value == cs[k]
  {
    if cs == [] then None
    else if Free(cs[0], bounds, taken) then
      assert FirstFreeAt(cs, bounds, taken, 0);
      Some(cs[0])
    else
      var rest := FirstFree(cs[1..], bounds, taken);
      assert rest.Some? ==> exists k :: FirstFreeAt(cs, bounds, taken, k) && rest.value == cs[k] by {
        if rest.Some? {
          var j :| FirstFreeAt(cs[1..], bounds, taken, j) && rest.value == cs[1..][j];
          assert forall m :: 1 <= m < j + 1 ==> cs[m] == cs[1..][m - 1];
          assert FirstFreeAt(cs, bounds, taken, j + 1) && rest.value == cs[j + 1];
        }
      }
      rest
  }

  // ----- the walk by priority

  /** Higher priority first, then by id. */
  function ByPriority(): (Request, Request) -> bool {
    (a: Request, b: Request) => a.priority > b.priority || (a.priority == b.priority && AtMost(a.id, b.id))
  }

  function Boxes(placed: seq<Option<Label>>): seq<Rect> {
    if placed == [] then []
    else Boxes(placed[..|placed| - 1]) + (if placed[|placed| - 1].Some? then [placed[|placed| - 1].value.box] else [])
  }

  /** Each request takes its first candidate clear of the avoided areas and of what was placed before it. */
  function Walk(order: seq<Request>, bounds: Rect, o: Options): (w: seq<Option<Label>>)
    ensures |w| == |order|
  {
    if order == [] then []
    else
      var before := Walk(order[..|order| - 1], bounds, o);
      before + [FirstFree(Candidates(order[|order| - 1], o), bounds, o.avoid + Boxes(before))]
  }

  /** The map entry for an id: what its last request in the walk received. */
  function Entry(order: seq<Request>, placed: seq<Option<Label>>, id: string): Option<Label>
    requires |order| == |placed|
  {
    if order == [] then None
    else if order[|order| - 1].id == id then placed[|order| - 1]
    else Entry(order[..|order| - 1], placed[..|order| - 1], id)
  }

  function Labels(requests: seq<Request>, bounds: Rect, o: Options): (r: seq<Option<Label>>)
    ensures |r| == |requests|
  {
    var order := Sort(requests, ByPriority());
    seq(|requests|, i requires 0 <= i < |requests| => Entry(order, Walk(order, bounds, o), requests[i].id))
  }

  // ----- what the walk guarantees

  lemma {:induction false} WalkStep(order: seq<Request>, bounds: Rect, o: Options, k: nat)
    requires k < |order|
    ensures Walk(order, bounds, o)[..k] == Walk(order[..k], bounds, o)
    ensures Walk(order, bounds, o)[k] == FirstFree(Candidates(order[k], o), bounds, o.avoid + Boxes(Walk(order[..k], bounds, o)))
  {
    hide FirstFree, Candidates, Boxes;
    var n := |order| - 1;
    if k < n {
      WalkStep(order[..n], bounds, o, k);
      assert order[..n][..k] == order[..k] && order[..n][k] == order[k];
    }
  }

  lemma {:induction false} BoxesHold(placed: seq<Option<Label>>, i: nat)
    requires i < |placed| && placed[i].Some?
    ensures placed[i].value.box in Boxes(placed)
  {
    if i < |placed| - 1 { BoxesHold(placed[..|placed| - 1], i); }
  }

  lemma {:induction false} BoxesAre(placed: seq<Option<Label>>, box: Rect)
    requires box in Boxes(placed)
    ensures exists i :: 0 <= i < |placed| && placed[i].Some? && placed[i].value.box == box
  {
    var n := |placed| - 1;
    if box in Boxes(placed[..n]) {
      BoxesAre(placed[..n], box);
      var i :| 0 <= i < n && placed[..n][i].Some? && placed[..n][i].value.box == box;
      assert placed[i].Some? && placed[i].value.box == box;
    } else {
      assert placed[n].Some? && placed[n].value.box == box;
    }
  }

  lemma MissesAll(taken: seq<Rect>, box: Rect, r: Rect)
    requires !Hits(taken, box) && r in taken
    ensures !Intersects(r, box) && !Intersects(box, r)
  {
    var i :| 0 <= i < |taken| && taken[i] == r;
    assert !Intersects(taken[i], box);
  }

  ghost predicate Offers(q: Request, o: Options, l: Label) {
    exists k :: 0 <= k < 14 && Candidates(q, o)[k] == l
  }

  lemma WalkOffers(order: seq<Request>, bounds: Rect, o: Options, i: nat)
    requires i < |order| && Walk(order, bounds, o)[i].Some?
    ensures var l := Walk(order, bounds, o)[i].value;
      && Offers(order[i], o, l) && l.id == order[i].id && Inside(l.box, bounds)
      && !Hits(o.avoid + Boxes(Walk(order[..i], bounds, o)), l.box)
  {
    hide Walk, Candidates, Boxes, Inside, Hits;
    WalkStep(order, bounds, o, i);
    var cs := Candidates(order[i], o);
    var taken := o.avoid + Boxes(Walk(order[..i], bounds, o));
    var k :| FirstFreeAt(cs, bounds, taken, k) && FirstFree(cs, bounds, taken).value == cs[k];
    CandidatesClearTheMark(order[i], o, k);
  }

  lemma WalkApart(order: seq<Request>, bounds: Rect, o: Options, i: nat, j: nat)
    requires i < j < |order| && Walk(order, bounds, o)[i].Some? && Walk(order, bounds, o)[j].Some?
    ensures !Intersects(Walk(order, bounds, o)[i].value.box, Walk(order, bounds, o)[j].value.box)
    ensures !Intersects(Walk(order, bounds, o)[j].value.box, Walk(order, bounds, o)[i].value.box)
  {
    hide *;
    WalkStep(order, bounds, o, j);
    WalkOffers(order, bounds, o, j);
    var before := Walk(order[..j], bounds, o);
    assert before[i] == Walk(order, bounds, o)[i];
    BoxesHold(before, i);
    MissesAll(o.avoid + Boxes(before), Walk(order, bounds, o)[j].value.box, before[i].value.box);
  }

  /** Why candidate l of the request at i could not be used. */
  ghost predicate Blocked(order: seq<Request>, bounds: Rect, o: Options, i: nat, l: Label)
    requires i < |order|
  {
    || !Inside(l.box, bounds)
    || Hits(o.avoid, l.box)
    || exists j :: 0 <= j < i && Walk(order, bounds, o)[j].Some? && Intersects(Walk(order, bounds, o)[j].value.box, l.box)
  }

  lemma HitsSplit(a: seq<Rect>, b: seq<Rect>, box: Rect)
    requires Hits(a + b, box)
    ensures Hits(a, box) || exists r :: r in b && Intersects(r, box)
  {
    var i :| 0 <= i < |a + b| && Intersects((a + b)[i], box);
    if i < |a| {
      assert Intersects(a[i], box);
    } else {
      assert b[i - |a|] in b;
    }
  }

  lemma WalkDrops(order: seq<Request>, bounds: Rect, o: Options, i: nat, k: nat)
    requires i < |order| && Walk(order, bounds, o)[i].None? && k < 14
    ensures Blocked(order, bounds, o, i, Candidates(order[i], o)[k])
  {
    hide Walk, Candidates, Boxes, Inside, Hits, Intersects;
    WalkStep(order, bounds, o, i);
    var l, before := Candidates(order[i], o)[k], Walk(order[..i], bounds, o);
    assert !Free(l, bounds, o.avoid + Boxes(before));
    if Inside(l.box, bounds) {
      HitsSplit(o.avoid, Boxes(before), l.box);
      if !Hits(o.avoid, l.box) {
        var r :| r in Boxes(before) && Intersects(r, l.box);
        BoxesAre(before, r);
        var j :| 0 <= j < i && before[j].Some? && before[j].value.box == r;
        assert Walk(order, bounds, o)[j] == before[j];
      }
    }
  }

  // ----- the labels of the requests

  lemma {:induction false} EntryIs(order: seq<Request>, placed: seq<Option<Label>>, id: string) returns (i: nat)
    requires |order| == |placed| && exists q :: q in order && q.id == id
    ensures i < |order| && order[i].id == id && Entry(order, placed, id) == placed[i]
  {
    var n := |order| - 1;
    if order[n].id == id {
      i := n;
    } else {
      var q :| q in order && q.id == id;
      assert q in order[..n];
      i := EntryIs(order[..n], placed[..n], id);
    }
  }

  lemma ByPriorityOrders()
    ensures TotalPreorder(ByPriority())
  {
    hide Less;
    var le := ByPriority();
    AtMostIsTotal();
    forall a, b ensures le(a, b) || le(b, a) { Connected(a.id, b.id); }
    forall a, b, c | le(a, b) && le(b, c) ensures le(a, c) {
      if a.priority == c.priority && a.id != b.id && b.id != c.id { Transitive(a.id, b.id, c.id); }
    }
  }

  /** Where request i stands in the walk. */
  lemma Stands(requests: seq<Request>, bounds: Rect, o: Options, i: nat) returns (k: nat)
    requires i < |requests|
    ensures var order := Sort(requests, ByPriority());
      k < |order| && order[k].id == requests[i].id && Labels(requests, bounds, o)[i] == Walk(order, bounds, o)[k] && order[k] in requests
  {
    hide Sort, Walk, Entry;
    var order := Sort(requests, ByPriority());
    ByPriorityOrders();
    SortIsSortedPermutation(requests, ByPriority());
    assert requests[i] in order;
    k := EntryIs(order, Walk(order, bounds, o), requests[i].id);
    assert order[k] in order;
  }

  /** A placed label is one of its request's candidates, inside the bounds and clear of every avoided area. */
  lemma LabelsAreClear(requests: seq<Request>, bounds: Rect, o: Options, i: nat)
    requires i < |requests| && Labels(requests, bounds, o)[i].Some?
    ensures var l := Labels(requests, bounds, o)[i].value;
      && l.id == requests[i].id && Inside(l.box, bounds) && !Hits(o.avoid, l.box)
      && exists q :: q in requests && q.id == l.id && Offers(q, o, l)
  {
    hide *;
    var order := Sort(requests, ByPriority());
    var k := Stands(requests, bounds, o, i);
    WalkOffers(order, bounds, o, k);
    MissesPart(o.avoid, Boxes(Walk(order[..k], bounds, o)), Labels(requests, bounds, o)[i].value.box);
    assert order[k] in requests && order[k].id == requests[i].id;
  }

  lemma MissesPart(a: seq<Rect>, b: seq<Rect>, box: Rect)
    requires !Hits(a + b, box)
    ensures !Hits(a, box)
  {
    forall i | 0 <= i < |a| ensures !Intersects(a[i], box) { assert (a + b)[i] == a[i]; }
  }

  /** Labels of different requests never overlap. */
  lemma LabelsNeverOverlap(requests: seq<Request>, bounds: Rect, o: Options, i: nat, j: nat)
    requires i < |requests| && j < |requests| && requests[i].id != requests[j].id
    requires Labels(requests, bounds, o)[i].Some? && Labels(requests, bounds, o)[j].Some?
    ensures !Intersects(Labels(requests, bounds, o)[i].value.box, Labels(requests, bounds, o)[j].value.box)
  {
    hide *;
    var order := Sort(requests, ByPriority());
    var k := Stands(requests, bounds, o, i);
    var m := Stands(requests, bounds, o, j);
    if k < m { WalkApart(order, bounds, o, k, m); }
    if m < k { WalkApart(order, bounds, o, m, k); }
  }

  ghost predicate DistinctIds(requests: seq<Request>) {
    forall i, j :: 0 <= i < |requests| && 0 <= j < |requests| && requests[i].id == requests[j].id ==> i == j
  }

  /** Candidate l cannot be used: it leaves the bounds, meets an avoided area, or meets the label of a request tried earlier. */
  ghost predicate Contested(requests: seq<Request>, bounds: Rect, o: Options, i: nat, l: Label)
    requires i < |requests|
  {
    || !Inside(l.box, bounds)
    || Hits(o.avoid, l.box)
    || exists j :: 0 <= j < |requests| && j != i && ByPriority()(requests[j], requests[i])
                   && Labels(requests, bounds, o)[j].Some? && Intersects(Labels(requests, bounds, o)[j].value.box, l.box)
  }

  lemma SameRequest(requests: seq<Request>, q: Request, i: nat)
    requires DistinctIds(requests) && i < |requests| && q in requests && q.id == requests[i].id
    ensures q == requests[i]
  {}

  lemma PlaceOf(requests: seq<Request>, q: Request) returns (i: nat)
    requires q in requests
    ensures i < |requests| && requests[i] == q
  {
    i :| i < |requests| && requests[i] == q;
  }

  /** In the walk each id stands once. */
  lemma StandsOnce(requests: seq<Request>, k: nat, m: nat)
    requires DistinctIds(requests)
    requires var order := Sort(requests, ByPriority()); k < |order| && m < |order| && order[k].id == order[m].id
    ensures k == m
  {
    hide Sort;
    var order := Sort(requests, ByPriority());
    ByPriorityOrders();
    SortIsSortedPermutation(requests, ByPriority());
    assert order[k] in requests && order[m] in requests;
    if k != m {
      var i := PlaceOf(requests, order[k]);
      SameRequest(requests, order[m], i);
      CountTwice(order, k, m);
      CountOnce(requests, i);
    }
  }

  lemma CountTwice(s: seq<Request>, k: nat, m: nat)
    requires k < |s| && m < |s| && k != m && s[k] == s[m]
    ensures multiset(s)[s[k]] >= 2
  {
    var a, b := if k < m then k else m, if k < m then m else k;
    assert s == s[..a] + [s[a]] + s[a + 1..b] + [s[b]] + s[b + 1..];
  }

  lemma CountOnce(s: seq<Request>, i: nat)
    requires DistinctIds(s) && i < |s|
    ensures multiset(s)[s[i]] == 1
  {
    assert s == s[..i] + [s[i]] + s[i + 1..];
    assert s[i] !in s[..i] && s[i] !in s[i + 1..];
  }

  /** The entry of the request at walk position m. */
  lemma EntryAt(requests: seq<Request>, bounds: Rect, o: Options, m: nat) returns (j: nat)
    requires DistinctIds(requests) && m < |Sort(requests, ByPriority())|
    ensures j < |requests| && requests[j] == Sort(requests, ByPriority())[m]
    ensures Labels(requests, bounds, o)[j] == Walk(Sort(requests, ByPriority()), bounds, o)[m]
  {
    hide *;
    var order := Sort(requests, ByPriority());
    ByPriorityOrders();
    SortIsSortedPermutation(requests, ByPriority());
    assert order[m] in order;
    j := PlaceOf(requests, order[m]);
    var k := Stands(requests, bounds, o, j);
    StandsOnce(requests, k, m);
  }

  lemma InPriority(requests: seq<Request>, m: nat, k: nat)
    requires m < k < |Sort(requests, ByPriority())|
    ensures ByPriority()(Sort(requests, ByPriority())[m], Sort(requests, ByPriority())[k])
  {
    hide Sort, ByPriority;
    ByPriorityOrders();
    SortIsSortedPermutation(requests, ByPriority());
  }

  /** A label is dropped only if all fourteen candidates were blocked when it was tried. */
  lemma DroppedOnlyIfContested(requests: seq<Request>, bounds: Rect, o: Options, i: nat, c: nat)
    requires DistinctIds(requests) && i < |requests| && Labels(requests, bounds, o)[i].None? && c < 14
    ensures Contested(requests, bounds, o, i, Candidates(requests[i], o)[c])
  {
    hide Sort, Walk, Candidates, Inside, Hits, Intersects, Labels, ByPriority, DistinctIds;
    var order := Sort(requests, ByPriority());
    var k := Stands(requests, bounds, o, i);
    SameRequest(requests, order[k], i);
    WalkDrops(order, bounds, o, k, c);
    var l := Candidates(requests[i], o)[c];
    if Inside(l.box, bounds) && !Hits(o.avoid, l.box) {
      var m :| 0 <= m < k && Walk(order, bounds, o)[m].Some? && Intersects(Walk(order, bounds, o)[m].value.box, l.box);
      var j := EntryAt(requests, bounds, o, m);
      InPriority(requests, m, k);
      if j == i { StandsOnce(requests, m, k); }
    }
  }

  /** The labels do not depend on the order of the requests. */
  lemma OrderDoesNotMatter(requests: seq<Request>, again: seq<Request>, bounds: Rect, o: Options, i: nat, j: nat)
    requires DistinctIds(requests) && multiset(requests) == multiset(again)
    requires i < |requests| && j < |again| && requests[i] == again[j]
    ensures Labels(requests, bounds, o)[i] == Labels(again, bounds, o)[j]
  {
    hide Sort, Walk, Entry;
    var le := ByPriority();
    ByPriorityOrders();
    SortIsSortedPermutation(requests, le);
    SortIsSortedPermutation(again, le);
    var s, t := Sort(requests, le), Sort(again, le);
    forall a, b | a in s && b in s && le(a, b) && le(b, a) ensures a == b {
      NoTies(a, b);
      var k := PlaceOf(requests, a);
      SameRequest(requests, b, k);
    }
    SortedIsUnique(s, t, le);
  }

  lemma NoTies(a: Request, b: Request)
    requires ByPriority()(a, b) && ByPriority()(b, a)
    ensures a.id == b.id
  {
    if a.id != b.id { Asymmetric(a.id, b.id); }
  }

  // ----- the loops

  lemma CandidateStep(q: Request, o: Options, k: nat, side: nat)
    requires k < 7 && side < 2
    ensures Candidates(q, o)[..2 * k + side + 1] == Candidates(q, o)[..2 * k + side] + [Candidate(q, o, Shifts(Height(q, o))[k], if side == 0 then AtStart else AtEnd)]
  {
    hide *;
    var c := Candidates(q, o);
    assert c[2 * k + side] == Candidate(q, o, Shifts(Height(q, o))[k], if side == 0 then AtStart else AtEnd);
  }

  method CandidatesOf(q: Request, o: Options) returns (candidates: seq<Label>)
    ensures candidates == Candidates(q, o)
  {
    hide *;
    candidates := [];
    var shifts := Shifts(Height(q, o));
    for k := 0 to |shifts|
      invariant |candidates| == 2 * k && candidates == Candidates(q, o)[..2 * k]
    {
      for side := 0 to 2
        invariant |candidates| == 2 * k + side && candidates == Candidates(q, o)[..2 * k + side]
      {
        CandidateStep(q, o, k, side);
        candidates := candidates + [Candidate(q, o, shifts[k], if side == 0 then AtStart else AtEnd)];
      }
    }
  }

  /** placeLabels. */
  method PlaceLabels(requests: seq<Request>, bounds: Rect, o: Options) returns (labels: seq<Option<Label>>)
    ensures labels == Labels(requests, bounds, o)
  {
    hide Candidates, FirstFree, Sort, Entry, Walk, Boxes;
    NothingPlaced(bounds, o);
    var taken, placed: map<string, Option<Label>> := o.avoid, map[];
    var order := Sort(requests, ByPriority());
    for k := 0 to |order|
      invariant taken == o.avoid + Boxes(Walk(order[..k], bounds, o))
      invariant forall id :: GotEntry(placed, id) == Entry(order[..k], Walk(order[..k], bounds, o), id)
    {
      var candidates := CandidatesOf(order[k], o);
      var free := FirstFree(candidates, bounds, taken);
      Extends(order, bounds, o, k);
      placed := placed[order[k].id := free];
      ghost var w := Walk(order[..k + 1], bounds, o);
      forall id ensures GotEntry(placed, id) == Entry(order[..k + 1], w, id) { EntryStep(order, w, k, id); }
      if free.Some? { taken := taken + [free.value.box]; }
    }
    assert order[..|order|] == order;
    labels := seq(|requests|, i requires 0 <= i < |requests| => GotEntry(placed, requests[i].id));
  }

  lemma NothingPlaced(bounds: Rect, o: Options)
    ensures Boxes(Walk([], bounds, o)) == [] && forall id :: Entry([], Walk([], bounds, o), id) == None
  {}

  function GotEntry(placed: map<string, Option<Label>>, id: string): Option<Label> {
    if id in placed then placed[id] else None
  }

  lemma Extends(order: seq<Request>, bounds: Rect, o: Options, k: nat)
    requires k < |order|
    ensures var before, w := Walk(order[..k], bounds, o), Walk(order[..k + 1], bounds, o);
      var c := FirstFree(Candidates(order[k], o), bounds, o.avoid + Boxes(before));
      && Boxes(w) == Boxes(before) + (if c.Some? then [c.value.box] else [])
      && w[..k] == before && w[k] == c
  {
    hide FirstFree, Candidates;
    assert order[..k + 1][..k] == order[..k];
    var before, w := Walk(order[..k], bounds, o), Walk(order[..k + 1], bounds, o);
    assert w[..k] == before;
  }

  lemma EntryStep(order: seq<Request>, w: seq<Option<Label>>, k: nat, id: string)
    requires k < |order| && |w| == k + 1
    ensures Entry(order[..k + 1], w, id) == if id == order[k].id then w[k] else Entry(order[..k], w[..k], id)
  {
    assert order[..k + 1][..k] == order[..k];
  }

  // ----- ticks

  predicate Far(a: real, b: real, scale: real -> real, gap: real) {
    var d := scale(a) - scale(b);
    (if d < 0.0 then -d else d) >= gap
  }

  /** Each tick far enough from the one kept before it. */
  function Kept(ticks: seq<real>, scale: real -> real, gap: real): (k: seq<real>)
    requires ticks != []
    ensures k != [] && k[0] == ticks[0]
  {
    var n := |ticks| - 1;
    if n == 0 then [ticks[0]]
    else
      var k := Kept(ticks[..n], scale, gap);
      if Far(ticks[n], k[|k| - 1], scale, gap) then k + [ticks[n]] else k
  }

  /** The kept ticks that leave the last tick room; the first stays in any case. */
  function Trim(kept: seq<real>, last: real, scale: real -> real, gap: real): (k: seq<real>)
    requires kept != []
    ensures k != [] && k <= kept && (|k| == 1 || Far(last, k[|k| - 1], scale, gap))
    ensures forall i :: |k| <= i < |kept| ==> !Far(last, kept[i], scale, gap)
  {
    if |kept| > 1 && !Far(last, kept[|kept| - 1], scale, gap) then Trim(kept[..|kept| - 1], last, scale, gap) else kept
  }

  function Thinned(ticks: seq<real>, scale: real -> real, gap: real): seq<real> {
    var n := |ticks| - 1;
    if n <= 1 then ticks else Trim(Kept(ticks[..n], scale, gap), ticks[n], scale, gap) + [ticks[n]]
  }

  ghost predicate Spaced(s: seq<real>, scale: real -> real, gap: real) {
    forall i :: 0 < i < |s| ==> Far(s[i], s[i - 1], scale, gap)
  }

  ghost predicate Within(s: seq<real>, t: seq<real>) {
    s == [] || (t != [] && (Within(s, t[..|t| - 1]) || (s[|s| - 1] == t[|t| - 1] && Within(s[..|s| - 1], t[..|t| - 1]))))
  }

  lemma {:induction false} WithinPrefix(s: seq<real>, t: seq<real>, k: nat)
    requires Within(s, t) && k <= |s|
    ensures Within(s[..k], t)
    decreases |t|
  {
    var n := |t| - 1;
    if k > 0 && k < |s| {
      if Within(s, t[..n]) {
        WithinPrefix(s, t[..n], k);
      } else {
        WithinPrefix(s[..|s| - 1], t[..n], k);
        assert s[..|s| - 1][..k] == s[..k];
      }
    } else if k == |s| {
      assert s[..k] == s;
    }
  }

  lemma {:induction false} KeptIs(ticks: seq<real>, scale: real -> real, gap: real)
    requires ticks != []
    ensures Spaced(Kept(ticks, scale, gap), scale, gap) && Within(Kept(ticks, scale, gap), ticks)
  {
    hide Far;
    var n := |ticks| - 1;
    if n > 0 {
      KeptIs(ticks[..n], scale, gap);
      var k := Kept(ticks[..n], scale, gap);
      assert (k + [ticks[n]])[..|k|] == k;
    } else {
      assert ticks[..0] == [] && [ticks[0]][..0] == [];
    }
  }

  /** Thinning keeps ticks in their order, always the first and the last, and leaves the gap between neighbours,
      unless only the two ends are left. */
  lemma ThinnedIsSpaced(ticks: seq<real>, scale: real -> real, gap: real)
    requires |ticks| > 2
    ensures var r := Thinned(ticks, scale, gap);
      && |r| >= 2 && r[0] == ticks[0] && r[|r| - 1] == ticks[|ticks| - 1]
      && Within(r, ticks) && (Spaced(r, scale, gap) || r == [ticks[0], ticks[|ticks| - 1]])
  {
    hide Far, Kept, Trim;
    var n := |ticks| - 1;
    var kept := Kept(ticks[..n], scale, gap);
    KeptIs(ticks[..n], scale, gap);
    var k := Trim(kept, ticks[n], scale, gap);
    WithinPrefix(kept, ticks[..n], |k|);
    assert kept[..|k|] == k && (k + [ticks[n]])[..|k|] == k;
  }

  lemma {:induction false} KeptAll(ticks: seq<real>, scale: real -> real, gap: real)
    requires ticks != [] && Spaced(ticks, scale, gap)
    ensures Kept(ticks, scale, gap) == ticks
  {
    hide Far;
    var n := |ticks| - 1;
    if n > 0 {
      KeptAll(ticks[..n], scale, gap);
      assert ticks[..n] + [ticks[n]] == ticks;
    }
  }

  lemma TrimKeeps(kept: seq<real>, last: real, scale: real -> real, gap: real)
    requires kept != [] && Far(last, kept[|kept| - 1], scale, gap)
    ensures Trim(kept, last, scale, gap) == kept
  {}

  /** No tick is dropped exactly when neighbours already leave the gap. */
  lemma NothingDroppedIff(ticks: seq<real>, scale: real -> real, gap: real)
    requires |ticks| > 2
    ensures Thinned(ticks, scale, gap) == ticks <==> Spaced(ticks, scale, gap)
  {
    hide Far, Kept, Trim;
    var n := |ticks| - 1;
    ThinnedIsSpaced(ticks, scale, gap);
    if Spaced(ticks, scale, gap) {
      KeptAll(ticks[..n], scale, gap);
      TrimKeeps(ticks[..n], ticks[n], scale, gap);
      assert ticks == ticks[..n] + [ticks[n]];
    }
  }

  /** thinTicks. */
  method ThinTicks(ticks: seq<real>, scale: real -> real, gap: real) returns (kept: seq<real>)
    ensures kept == Thinned(ticks, scale, gap)
  {
    hide Far, Trim;
    if |ticks| <= 2 { return ticks; }
    kept := [ticks[0]];
    var n := |ticks| - 1;
    for i := 1 to n
      invariant kept == Kept(ticks[..i], scale, gap)
    {
      assert ticks[..i + 1][..i] == ticks[..i];
      if Far(ticks[i], kept[|kept| - 1], scale, gap) { kept := kept + [ticks[i]]; }
    }
    kept := TrimBack(kept, ticks[n], scale, gap);
    kept := kept + [ticks[n]];
  }

  method TrimBack(all: seq<real>, last: real, scale: real -> real, gap: real) returns (kept: seq<real>)
    requires all != []
    ensures kept == Trim(all, last, scale, gap)
  {
    hide Far;
    kept := all;
    while |kept| > 1 && !Far(last, kept[|kept| - 1], scale, gap)
      invariant kept != [] && Trim(kept, last, scale, gap) == Trim(all, last, scale, gap)
    {
      kept := kept[..|kept| - 1];
    }
  }
}
