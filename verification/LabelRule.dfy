/** Which label each request gets, said without the walk: higher priority first, then by id, each taking its first usable spot. */
module LabelRule {
  import opened Text
  import opened Sorting
  import opened Order
  import opened ChartLabels

  /** a is placed before b: greater priority, and of equal priorities the lesser id. */
  ghost predicate Before(a: Request, b: Request) {
    a.priority > b.priority || (a.priority == b.priority && Less(a.id, b.id))
  }

  /** How many heights off the mark's own line the m-th pair of spots is: none, one above, one below, two above, ... */
  function Steps(m: nat): int {
    if m % 2 == 1 then -((m + 1) / 2) else m / 2
  }

  /** The k-th spot of a request: right of the mark, then left, on the mark's line and then further above and below it. */
  ghost predicate Spot(q: Request, o: Options, k: nat, l: Label) {
    var height := o.lineHeight * (if q.lines.Some? then q.lines.value else 1) as real;
    && l.id == q.id && l.box.width == |q.text| as real * o.charWidth && l.box.height == height
    && (if k % 2 == 0 then l.anchor == AtStart && l.x == q.x + o.gap && l.box.x == l.x
        else l.anchor == AtEnd && l.x == q.x - o.gap && l.box.x + l.box.width == l.x)
    && l.y == q.y + 0.34 * o.lineHeight + Steps(k / 2) as real * height && l.box.y == l.y - 0.72 * o.lineHeight
  }

  ghost predicate WithinBounds(box: Rect, bounds: Rect) {
    && bounds.x <= box.x && box.x + box.width <= bounds.x + bounds.width
    && bounds.y <= box.y && box.y + box.height <= bounds.y + bounds.height
  }

  /** One lies beside, above or below the other. */
  ghost predicate Clear(a: Rect, b: Rect) {
    a.x + a.width <= b.x || b.x + b.width <= a.x || a.y + a.height <= b.y || b.y + b.height <= a.y
  }

  /** A spot that can be used: inside the bounds, clear of the avoided areas and of the label of every request placed before. */
  ghost predicate Usable(requests: seq<Request>, labels: seq<Option<Label>>, bounds: Rect, o: Options, q: Request, box: Rect)
    requires |labels| == |requests|
  {
    && WithinBounds(box, bounds) && (forall r :: r in o.avoid ==> Clear(r, box))
    && forall j :: 0 <= j < |requests| && Before(requests[j], q) ==> ClearOf(labels[j], box)
  }

  ghost predicate ClearOf(placed: Option<Label>, box: Rect) {
    placed.Some? ==> Clear(placed.value.box, box)
  }

  /** The first usable of the fourteen spots, or none where none is usable. */
  ghost predicate Gets(requests: seq<Request>, labels: seq<Option<Label>>, bounds: Rect, o: Options, q: Request, got: Option<Label>)
    requires |labels| == |requests|
  {
    if got.Some? then exists k: nat :: FirstSpot(requests, labels, bounds, o, q, got.value, k)
    else NoneBefore(requests, labels, bounds, o, q, 14)
  }

  ghost predicate FirstSpot(requests: seq<Request>, labels: seq<Option<Label>>, bounds: Rect, o: Options, q: Request, l: Label, k: nat)
    requires |labels| == |requests|
  {
    k < 14 && Spot(q, o, k, l) && Usable(requests, labels, bounds, o, q, l.box) && NoneBefore(requests, labels, bounds, o, q, k)
  }

  ghost predicate NoneBefore(requests: seq<Request>, labels: seq<Option<Label>>, bounds: Rect, o: Options, q: Request, k: nat)
    requires |labels| == |requests|
  {
    forall m: nat, l :: m < k && Spot(q, o, m, l) ==> !Usable(requests, labels, bounds, o, q, l.box)
  }

  // ----- the model's words and these

  lemma ShiftIs(height: real, m: nat)
    requires m < 7
    ensures Shifts(height)[m] == Steps(m) as real * height
  {
    var n := Steps(m);
    if m == 0 { assert n == 0; } else if m == 1 { assert n == -1; } else if m == 2 { assert n == 1; } else if m == 3 { assert n == -2; }
    else if m == 4 { assert n == 2; } else if m == 5 { assert n == -3; } else { assert n == 3; }
  }

  lemma CandidateAt(q: Request, o: Options, k: nat, shift: real)
    requires shift == Steps(k / 2) as real * Height(q, o)
    ensures Spot(q, o, k, Candidate(q, o, shift, if k % 2 == 0 then AtStart else AtEnd))
  {
    hide Steps;
  }

  lemma CandidateIs(q: Request, o: Options, k: nat)
    requires k < 14
    ensures Spot(q, o, k, Candidates(q, o)[k])
  {
    hide Shifts, Steps, Spot, Candidate, Height;
    var m := k / 2;
    assert k == 2 * m || k == 2 * m + 1;
    ShiftIs(Height(q, o), m);
    CandidateAt(q, o, k, Shifts(Height(q, o))[m]);
  }

  lemma OneSpot(q: Request, o: Options, k: nat, a: Label, b: Label)
    requires Spot(q, o, k, a) && Spot(q, o, k, b)
    ensures a == b
  {
    hide Steps;
  }

  lemma ClearIff(a: Rect, b: Rect)
    ensures Clear(a, b) <==> !Intersects(a, b)
    ensures WithinBounds(a, b) <==> Inside(a, b)
  {}

  lemma BeforeIff(a: Request, b: Request)
    requires a.id != b.id
    ensures ByPriority()(a, b) <==> Before(a, b)
  {}

  lemma NotBeforeItself(a: Request)
    ensures !Before(a, a)
  {
    Irreflexive(a.id);
  }

  lemma BeforeTransitive(a: Request, b: Request, c: Request)
    requires Before(a, b) && Before(b, c)
    ensures Before(a, c)
  {
    if a.priority == b.priority == c.priority { Transitive(a.id, b.id, c.id); }
  }

  // ----- the labels follow the rule

  lemma HitsNone(taken: seq<Rect>, box: Rect)
    ensures !Hits(taken, box) <==> forall r :: r in taken ==> Clear(r, box)
  {
    forall a: Rect, b: Rect ensures Clear(a, b) <==> !Intersects(a, b) { ClearIff(a, b); }
    if !Hits(taken, box) {
      forall r | r in taken ensures Clear(r, box) { var i :| 0 <= i < |taken| && taken[i] == r; }
    }
    if forall r :: r in taken ==> Clear(r, box) {
      forall i | 0 <= i < |taken| ensures !Intersects(taken[i], box) { assert taken[i] in taken; }
    }
  }

  /** What stands in the walk before place k is what the requests placed before it received. */
  lemma WalkBefore(requests: seq<Request>, bounds: Rect, o: Options, i: nat, k: nat, box: Rect)
    requires DistinctIds(requests) && i < |requests| && k < |Sort(requests, ByPriority())| && Sort(requests, ByPriority())[k] == requests[i]
    ensures (forall r :: r in Boxes(Walk(Sort(requests, ByPriority())[..k], bounds, o)) ==> Clear(r, box))
      <==> forall j :: 0 <= j < |requests| && Before(requests[j], requests[i]) ==> ClearOf(Labels(requests, bounds, o)[j], box)
  {
    hide Sort, Walk, Candidates, Labels, ByPriority, Before, Clear, Boxes, DistinctIds;
    var order := Sort(requests, ByPriority());
    var before, labels := Walk(order[..k], bounds, o), Labels(requests, bounds, o);
    WalkStep(order, bounds, o, k);
    if forall r :: r in Boxes(before) ==> Clear(r, box) {
      forall j | 0 <= j < |requests| && Before(requests[j], requests[i]) ensures ClearOf(labels[j], box) {
        var m := PlaceBefore(requests, bounds, o, j, i, k);
        if labels[j].Some? { BoxesHold(before, m); }
      }
    }
    if forall j :: 0 <= j < |requests| && Before(requests[j], requests[i]) ==> ClearOf(labels[j], box) {
      forall r | r in Boxes(before) ensures Clear(r, box) {
        BoxesAre(before, r);
        var m :| 0 <= m < |before| && before[m].Some? && before[m].value.box == r;
        var j := EntryAt(requests, bounds, o, m);
        InPriority(requests, m, k);
        if requests[j].id == requests[i].id { StandsOnce(requests, m, k); }
        BeforeIff(requests[j], requests[i]);
        assert Walk(order, bounds, o)[m] == before[m];
      }
    }
  }

  /** A request placed before another stands earlier in the walk. */
  lemma PlaceBefore(requests: seq<Request>, bounds: Rect, o: Options, j: nat, i: nat, k: nat) returns (m: nat)
    requires DistinctIds(requests) && i < |requests| && j < |requests| && Before(requests[j], requests[i])
    requires k < |Sort(requests, ByPriority())| && Sort(requests, ByPriority())[k] == requests[i]
    ensures m < k && Labels(requests, bounds, o)[j] == Walk(Sort(requests, ByPriority())[..k], bounds, o)[m]
  {
    hide Sort, Walk, Labels, ByPriority, Before, DistinctIds;
    var order := Sort(requests, ByPriority());
    m := Stands(requests, bounds, o, j);
    SameRequest(requests, order[m], j);
    NotBeforeItself(requests[i]);
    if m > k {
      InPriority(requests, k, m);
      BothWays(requests[i], requests[j]);
    } else if m == k {
    }
    WalkStep(order, bounds, o, k);
  }

  lemma BothWays(a: Request, b: Request)
    requires ByPriority()(a, b)
    ensures !Before(b, a)
  {
    if Less(b.id, a.id) { Asymmetric(b.id, a.id); }
    Irreflexive(a.id);
  }

  lemma UsableIff(requests: seq<Request>, bounds: Rect, o: Options, i: nat, k: nat, l: Label)
    requires DistinctIds(requests) && i < |requests| && k < |Sort(requests, ByPriority())| && Sort(requests, ByPriority())[k] == requests[i]
    ensures Usable(requests, Labels(requests, bounds, o), bounds, o, requests[i], l.box)
      <==> ChartLabels.Free(l, bounds, o.avoid + Boxes(Walk(Sort(requests, ByPriority())[..k], bounds, o)))
  {
    hide Sort, Walk, Labels, ByPriority, Before, DistinctIds, Boxes, Clear, Intersects;
    var boxes := Boxes(Walk(Sort(requests, ByPriority())[..k], bounds, o));
    WalkBefore(requests, bounds, o, i, k, l.box);
    HitsNone(o.avoid + boxes, l.box);
    ClearIff(l.box, bounds);
  }

  /** With distinct ids, every request gets its first usable spot, and none exactly where no spot is usable. */
  lemma LabelIs(requests: seq<Request>, bounds: Rect, o: Options, i: nat)
    requires DistinctIds(requests) && i < |requests|
    ensures Gets(requests, Labels(requests, bounds, o), bounds, o, requests[i], Labels(requests, bounds, o)[i])
  {
    hide Sort, Walk, Candidates, Labels, ByPriority, DistinctIds, Usable, Spot, Free, Boxes;
    var order := Sort(requests, ByPriority());
    var k := Stands(requests, bounds, o, i);
    SameRequest(requests, order[k], i);
    WalkStep(order, bounds, o, k);
    var cs, labels := Candidates(requests[i], o), Labels(requests, bounds, o);
    var taken := o.avoid + Boxes(Walk(order[..k], bounds, o));
    forall m: nat, l | m < 14 && Spot(requests[i], o, m, l) ensures l == cs[m] && (Usable(requests, labels, bounds, o, requests[i], l.box) <==> Free(cs[m], bounds, taken)) {
      CandidateIs(requests[i], o, m);
      OneSpot(requests[i], o, m, l, cs[m]);
      UsableIff(requests, bounds, o, i, k, l);
    }
    if labels[i].Some? {
      var m :| FirstFreeAt(cs, bounds, taken, m) && labels[i].value == cs[m];
      CandidateIs(requests[i], o, m);
      assert FirstSpot(requests, labels, bounds, o, requests[i], labels[i].value, m);
    }
  }

  // ----- only what is placed before counts

  lemma SameUsable(requests: seq<Request>, labels: seq<Option<Label>>, again: seq<Request>, labels': seq<Option<Label>>, bounds: Rect, o: Options, q: Request)
    requires |labels| == |requests| && |labels'| == |again|
    requires forall j :: 0 <= j < |requests| && Before(requests[j], q) ==> exists k :: 0 <= k < |again| && again[k] == requests[j] && labels'[k] == labels[j]
    requires forall k :: 0 <= k < |again| && Before(again[k], q) ==> exists j :: 0 <= j < |requests| && requests[j] == again[k] && labels[j] == labels'[k]
    ensures forall box :: Usable(requests, labels, bounds, o, q, box) <==> Usable(again, labels', bounds, o, q, box)
  {
    hide Before, Clear, WithinBounds;
  }

  lemma SameGets(requests: seq<Request>, labels: seq<Option<Label>>, again: seq<Request>, labels': seq<Option<Label>>, bounds: Rect, o: Options, q: Request,
                 a: Option<Label>, b: Option<Label>)
    requires |labels| == |requests| && |labels'| == |again|
    requires forall box :: Usable(requests, labels, bounds, o, q, box) <==> Usable(again, labels', bounds, o, q, box)
    requires Gets(requests, labels, bounds, o, q, a) && Gets(again, labels', bounds, o, q, b)
    ensures a == b
  {
    hide Usable, Spot;
    if a.Some? && b.Some? {
      var k: nat :| FirstSpot(requests, labels, bounds, o, q, a.value, k);
      var m: nat :| FirstSpot(again, labels', bounds, o, q, b.value, m);
      if k == m { OneSpot(q, o, k, a.value, b.value); }
    }
  }

  ghost function Earlier(requests: seq<Request>, q: Request): set<Request> {
    set r | r in requests && Before(r, q)
  }

  lemma FewerEarlier(requests: seq<Request>, q: Request, r: Request)
    requires r in requests && Before(r, q)
    ensures Earlier(requests, r) < Earlier(requests, q)
  {
    forall x | x in Earlier(requests, r) ensures x in Earlier(requests, q) { BeforeTransitive(x, r, q); }
    NotBeforeItself(r);
    assert r in Earlier(requests, q);
  }

  lemma Fewer(a: set<Request>, b: set<Request>)
    requires a < b
    ensures |a| < |b|
  {
    assert b == a + (b - a);
  }

  /**
   A label depends only on its own request and on those placed before it: in any two lists that agree on these, it is the
   same. So neither the order of the requests nor any of lower priority ever shows.
  */
  lemma {:induction false} OnlyEarlierCount(requests: seq<Request>, again: seq<Request>, bounds: Rect, o: Options, i: nat, j: nat)
    requires DistinctIds(requests) && DistinctIds(again) && i < |requests| && j < |again| && requests[i] == again[j]
    requires forall q :: Before(q, requests[i]) ==> (q in requests <==> q in again)
    ensures Labels(requests, bounds, o)[i] == Labels(again, bounds, o)[j]
    decreases |Earlier(requests, requests[i])|
  {
    hide Labels, Before, DistinctIds, Gets, Earlier, Usable;
    var labels, labels', q := Labels(requests, bounds, o), Labels(again, bounds, o), requests[i];
    forall m | 0 <= m < |requests| && Before(requests[m], q) ensures exists k :: 0 <= k < |again| && again[k] == requests[m] && labels'[k] == labels[m] {
      assert requests[m] in requests && requests[m] in again;
      var k := PlaceOf(again, requests[m]);
      EarlierAgree(requests, again, requests[m], q);
      FewerEarlier(requests, q, requests[m]);
      Fewer(Earlier(requests, requests[m]), Earlier(requests, q));
      OnlyEarlierCount(requests, again, bounds, o, m, k);
    }
    forall k | 0 <= k < |again| && Before(again[k], q) ensures exists m :: 0 <= m < |requests| && requests[m] == again[k] && labels[m] == labels'[k] {
      assert again[k] in again && again[k] in requests;
      var m := PlaceOf(requests, again[k]);
      EarlierAgree(requests, again, requests[m], q);
      FewerEarlier(requests, q, requests[m]);
      Fewer(Earlier(requests, requests[m]), Earlier(requests, q));
      OnlyEarlierCount(requests, again, bounds, o, m, k);
    }
    SameUsable(requests, labels, again, labels', bounds, o, q);
    LabelIs(requests, bounds, o, i);
    LabelIs(again, bounds, o, j);
    SameGets(requests, labels, again, labels', bounds, o, q, labels[i], labels'[j]);
  }

  lemma EarlierAgree(requests: seq<Request>, again: seq<Request>, r: Request, q: Request)
    requires Before(r, q) && forall x :: Before(x, q) ==> (x in requests <==> x in again)
    ensures forall x :: Before(x, r) ==> (x in requests <==> x in again)
  {
    forall x | Before(x, r) ensures x in requests <==> x in again { BeforeTransitive(x, r, q); }
  }

  /** Taking out a request that another was placed before leaves that other's label. */
  lemma LowerNeverShows(requests: seq<Request>, gone: nat, bounds: Rect, o: Options, i: nat)
    requires DistinctIds(requests) && gone < |requests| && i < |requests| && i != gone && Before(requests[i], requests[gone])
    ensures var rest := requests[..gone] + requests[gone + 1..];
      Labels(rest, bounds, o)[if i < gone then i else i - 1] == Labels(requests, bounds, o)[i]
  {
    hide Labels, Before;
    var rest := requests[..gone] + requests[gone + 1..];
    var j := if i < gone then i else i - 1;
    forall a, b | 0 <= a < |rest| && 0 <= b < |rest| && rest[a].id == rest[b].id ensures a == b {
      assert rest[a] == requests[if a < gone then a else a + 1] && rest[b] == requests[if b < gone then b else b + 1];
    }
    NotBeforeItself(requests[i]);
    forall q | Before(q, requests[i]) ensures q in requests <==> q in rest {
      if q == requests[gone] { BeforeTransitive(requests[i], q, requests[i]); }
      if q in requests {
        var k := PlaceOf(requests, q);
        assert rest[if k < gone then k else k - 1] == q;
      }
    }
    OnlyEarlierCount(requests, rest, bounds, o, i, j);
  }
}
