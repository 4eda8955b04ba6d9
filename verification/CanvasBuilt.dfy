/** The graph that is built is the graph of the runs. */
module CanvasBuilt {
  import opened Text
  import opened Sorting
  import opened Order
  import opened SessionStacks
  import opened DeckOrder
  import opened CanvasGraph
  import opened CanvasBuild

  // ----- a deck and its runs

  /** The decks hold the runs at the positions, in some order. */
  ghost predicate Dealt(runs: seq<CanvasRun>, positions: seq<seq<nat>>, decks: seq<seq<CanvasRun>>) {
    && |decks| <= |positions|
    && forall c :: 0 <= c < |decks| ==> DealtAt(runs, positions[c], decks[c])
  }

  ghost predicate DealtAt(runs: seq<CanvasRun>, deck: seq<nat>, held: seq<CanvasRun>) {
    && (forall k :: 0 <= k < |deck| ==> deck[k] < |runs|)
    && multiset(held) == multiset(Members(runs, deck)) && |held| == |deck|
  }

  lemma DealtHolds(runs: seq<CanvasRun>, deck: seq<nat>, held: seq<CanvasRun>, r: CanvasRun)
    requires DealtAt(runs, deck, held)
    ensures r in held <==> exists j :: j in deck && runs[j] == r
  {
    assert r in held <==> r in multiset(Members(runs, deck));
    if r in held {
      var k :| 0 <= k < |deck| && Members(runs, deck)[k] == r;
      assert deck[k] in deck;
    }
    if j :| j in deck && runs[j] == r {
      var k :| 0 <= k < |deck| && deck[k] == j;
      assert Members(runs, deck)[k] == r;
    }
  }

  /** The runs of a deck are those some chain joins to any one of them. */
  lemma DeckIs(runs: seq<CanvasRun>, positions: seq<seq<nat>>, c: nat, i: nat, held: seq<CanvasRun>, r: CanvasRun)
    requires Components(Base(runs), positions) && Holds(positions, c, i) && DealtAt(runs, positions[c], held)
    ensures i < |runs| && (r in held <==> exists j :: InDeck(runs, i, j) && runs[j] == r)
  {
    hide Together, Components;
    DealtHolds(runs, positions[c], held, r);
    if r in held {
      var j :| j in positions[c] && runs[j] == r;
      InItsDeck(Base(runs), positions, c, i, j);
      assert InDeck(runs, i, j);
    }
    if j :| InDeck(runs, i, j) && runs[j] == r {
      InItsDeck(Base(runs), positions, c, i, j);
    }
  }

  lemma FirstIsLeastId(ids: seq<string>, all: set<string>)
    requires ids != [] && forall x :: x in ids <==> x in all
    ensures all != {} && RunNodeId(ids) == "run:" + Least(all)
  {
    hide Less;
    AtMostIsTotal();
    SortIsSortedPermutation(ids, AtMost);
    var s := Sort(ids, AtMost);
    assert ids[0] in all && s[0] in s;
    forall x | x in all ensures AtMost(s[0], x) {
      assert x in s;
    }
    LeastIsUnique(s[0], Least(all), all);
  }

  lemma IdsHeld(held: seq<CanvasRun>, id: string)
    ensures id in IdsOf(held) <==> exists r :: r in held && r.run.sessionId == id
  {
    if id in IdsOf(held) { var k :| 0 <= k < |held| && IdsOf(held)[k] == id; }
    if r :| r in held && r.run.sessionId == id { var k :| 0 <= k < |held| && held[k] == r; assert IdsOf(held)[k] == id; }
  }

  lemma HeldIn(runs: seq<CanvasRun>, deck: seq<nat>, held: seq<CanvasRun>, i: nat)
    requires DealtAt(runs, deck, held) && i in deck
    ensures i < |runs|
  {}

  lemma DeckIdsAre(runs: seq<CanvasRun>, i: nat, id: string)
    ensures id in DeckIds(runs, i) <==> exists j :: InDeck(runs, i, j) && runs[j].run.sessionId == id
  {
    hide Together;
    if j :| InDeck(runs, i, j) && runs[j].run.sessionId == id { assert 0 <= j < |runs|; }
  }

  /** The deck's node id is the one every position of it names. */
  lemma DeckNodeId(runs: seq<CanvasRun>, positions: seq<seq<nat>>, c: nat, i: nat, held: seq<CanvasRun>)
    requires Components(Base(runs), positions) && Holds(positions, c, i) && DealtAt(runs, positions[c], held)
    ensures i < |runs| && RunNodeId(IdsOf(held)) == RunIdAt(runs, i)
  {
    hide Together, Components, RunNodeId, Least, DeckIds;
    HeldIn(runs, positions[c], held, i);
    DeckIs(runs, positions, c, i, held, runs[i]);
    DeckHoldsItself(runs, i);
    forall id ensures id in IdsOf(held) <==> id in DeckIds(runs, i) {
      IdsHeld(held, id);
      if r :| r in held && r.run.sessionId == id {
        DeckIs(runs, positions, c, i, held, r);
        var j :| InDeck(runs, i, j) && runs[j] == r;
      }
      DeckIdsAre(runs, i, id);
      if id in DeckIds(runs, i) {
        var j :| InDeck(runs, i, j) && runs[j].run.sessionId == id;
        DeckIs(runs, positions, c, i, held, runs[j]);
      }
    }
    assert runs[i].run.sessionId in DeckIds(runs, i);
    assert runs[i].run.sessionId in IdsOf(held);
    FirstIsLeastId(IdsOf(held), DeckIds(runs, i));
  }

  lemma DeckConnects(runs: seq<CanvasRun>, positions: seq<seq<nat>>, c: nat, i: nat, held: seq<CanvasRun>)
    requires Components(Base(runs), positions) && Holds(positions, c, i) && DealtAt(runs, positions[c], held)
    ensures Several(GroupsOf(held)) <==> Connects(runs, i)
  {
    hide Together, Components, DealtAt;
    if Several(GroupsOf(held)) {
      var x, y :| x in GroupsOf(held) && y in GroupsOf(held) && x != y;
      var r :| r in held && r.run.groupId == Some(x);
      var s :| s in held && s.run.groupId == Some(y);
      DeckIs(runs, positions, c, i, held, r);
      DeckIs(runs, positions, c, i, held, s);
      var j :| InDeck(runs, i, j) && runs[j] == r;
      var k :| InDeck(runs, i, k) && runs[k] == s;
    }
    if Connects(runs, i) {
      var j, k :| InDeck(runs, i, j) && InDeck(runs, i, k)
        && runs[j].run.groupId.Some? && runs[k].run.groupId.Some? && runs[j].run.groupId != runs[k].run.groupId;
      DeckIs(runs, positions, c, i, held, runs[j]);
      DeckIs(runs, positions, c, i, held, runs[k]);
      assert runs[j].run.groupId.value in GroupsOf(held) && runs[k].run.groupId.value in GroupsOf(held);
    }
  }

  // ----- the whole list of decks

  /** Every deck has been dealt. */
  ghost predicate AllDealt(runs: seq<CanvasRun>, positions: seq<seq<nat>>, decks: seq<seq<CanvasRun>>) {
    Components(Base(runs), positions) && Dealt(runs, positions, decks) && |decks| == |positions|
  }

  lemma SomeDeck(runs: seq<CanvasRun>, positions: seq<seq<nat>>, decks: seq<seq<CanvasRun>>, i: nat) returns (c: nat)
    requires AllDealt(runs, positions, decks) && i < |runs|
    ensures c < |decks| && Holds(positions, c, i) && DealtAt(runs, positions[c], decks[c]) && runs[i] in decks[c]
  {
    hide DealtAt;
    assert Placed(positions, i);
    c :| Holds(positions, c, i);
    DealtHolds(runs, positions[c], decks[c], runs[i]);
  }

  lemma SomePosition(runs: seq<CanvasRun>, positions: seq<seq<nat>>, decks: seq<seq<CanvasRun>>, c: nat, r: CanvasRun) returns (i: nat)
    requires AllDealt(runs, positions, decks) && c < |decks| && r in decks[c]
    ensures Holds(positions, c, i) && DealtAt(runs, positions[c], decks[c]) && i < |runs| && runs[i] == r
  {
    hide Together;
    DealtHolds(runs, positions[c], decks[c], r);
    i :| i in positions[c] && runs[i] == r;
  }

  lemma DealtAll(runs: seq<CanvasRun>, positions: seq<seq<nat>>, decks: seq<seq<CanvasRun>>)
    requires AllDealt(runs, positions, decks)
    ensures forall r :: r in AllOf(decks) <==> r in runs
    ensures forall c :: 0 <= c < |decks| ==> decks[c] != []
  {
    hide AllDealt, AllOf;
    forall r ensures r in AllOf(decks) <==> r in runs {
      InAllOf(decks, r);
      if r in runs {
        var i :| 0 <= i < |runs| && runs[i] == r;
        var c := SomeDeck(runs, positions, decks, i);
      }
      if c :| 0 <= c < |decks| && r in decks[c] { var i := SomePosition(runs, positions, decks, c, r); }
    }
    forall c | 0 <= c < |decks| ensures decks[c] != [] { NoEmptyDeck(runs, positions, decks, c); }
  }

  lemma NoEmptyDeck(runs: seq<CanvasRun>, positions: seq<seq<nat>>, decks: seq<seq<CanvasRun>>, c: nat)
    requires AllDealt(runs, positions, decks) && c < |decks|
    ensures decks[c] != []
  {
    hide Together;
    assert Rising(positions[c], |runs|);
  }

  lemma DeckEdgeIs(runs: seq<CanvasRun>, positions: seq<seq<nat>>, c: nat, i: nat, held: seq<CanvasRun>, plans: set<string>, e: Edge)
    requires Components(Base(runs), positions) && Holds(positions, c, i) && DealtAt(runs, positions[c], held) && i < |runs|
    ensures RunEdge(RunNodeId(IdsOf(held)), Kind(Several(GroupsOf(held))), plans, runs[i], e) <==> DeckEdge(runs, plans, i, e)
  {
    hide RunEdge, Components, DealtAt, RunNodeId, RunIdAt, Several, Connects, Holds;
    DeckNodeId(runs, positions, c, i, held);
    DeckConnects(runs, positions, c, i, held);
  }

  /** What the decks push is what the runs of the decks connect. */
  lemma PushedIsDeckEdge(runs: seq<CanvasRun>, positions: seq<seq<nat>>, decks: seq<seq<CanvasRun>>, plans: set<string>, e: Edge)
    requires AllDealt(runs, positions, decks)
    ensures Pushed(decks, plans, e) <==> exists i :: DeckEdge(runs, plans, i, e)
  {
    hide RunEdge, DeckEdge, DealtAt, Components;
    if Pushed(decks, plans, e) {
      var c :| 0 <= c < |decks| && PushedBy(decks[c], plans, e);
      var r :| r in decks[c] && RunEdge(RunNodeId(IdsOf(decks[c])), Kind(Several(GroupsOf(decks[c]))), plans, r, e);
      var i := SomePosition(runs, positions, decks, c, r);
      DeckEdgeIs(runs, positions, c, i, decks[c], plans, e);
    }
    if i :| DeckEdge(runs, plans, i, e) {
      EdgeInRange(runs, plans, i, e);
      var c := SomeDeck(runs, positions, decks, i);
      DeckEdgeIs(runs, positions, c, i, decks[c], plans, e);
      assert PushedBy(decks[c], plans, e);
    }
  }

  lemma EdgeInRange(runs: seq<CanvasRun>, plans: set<string>, i: int, e: Edge)
    requires DeckEdge(runs, plans, i, e)
    ensures 0 <= i < |runs|
  {}

  // ----- nodes

  function Weighted(kind: NodeKind, keys: seq<string>, weights: map<string, nat>): (nodes: seq<Node>)
    requires kind.SessionNode? || kind.PlanNode? || kind.GroundNode?
    ensures |nodes| == |keys| && forall i :: 0 <= i < |keys| ==> nodes[i] == Node(IdFor(kind, keys[i]), kind, Got(weights, keys[i]))
  {
    seq(|keys|, i requires 0 <= i < |keys| => Node(IdFor(kind, keys[i]), kind, Got(weights, keys[i])))
  }

  function IdFor(kind: NodeKind, key: string): string {
    match kind
    case SessionNode => SessionNodeId(key)
    case PlanNode => PlanNodeId(key)
    case GroundNode => GroundNodeId(key)
    case _ => key
  }

  function PairNodes(keys: seq<string>, pairs: map<string, Pair>): (nodes: seq<Node>)
    requires forall i :: 0 <= i < |keys| ==> keys[i] in pairs
    ensures |nodes| == |keys| && forall i :: 0 <= i < |keys| ==> nodes[i] == Node(keys[i], PairNode, pairs[keys[i]].weight)
  {
    seq(|keys|, i requires 0 <= i < |keys| => Node(keys[i], PairNode, pairs[keys[i]].weight))
  }

  function PairEdges(keys: seq<string>, pairs: map<string, Pair>): (edges: seq<Edge>)
    requires forall i :: 0 <= i < |keys| ==> keys[i] in pairs
    ensures |edges| == |keys| && forall i :: 0 <= i < |keys| ==> edges[i] == Edge(keys[i], GroundNodeId(pairs[keys[i]].project), ReplayEdge)
  {
    seq(|keys|, i requires 0 <= i < |keys| => Edge(keys[i], GroundNodeId(pairs[keys[i]].project), ReplayEdge))
  }

  predicate OnMap(n: Node) {
    n.kind.RunNode? || n.weight > 0
  }

  /** nodes.filter(placed), or of the rest. */
  function Chosen(nodes: seq<Node>, placed: bool): (r: seq<Node>)
    ensures forall n :: n in r <==> n in nodes && (OnMap(n) <==> placed)
  {
    if nodes == [] then []
    else
      var rest := Chosen(nodes[1..], placed);
      assert forall n :: n in nodes <==> n == nodes[0] || n in nodes[1..];
      (if OnMap(nodes[0]) == placed then [nodes[0]] else []) + rest
  }

  ghost predicate Shows(nodes: seq<Node>, id: string) {
    exists n :: n in nodes && n.id == id
  }

  lemma PairEdgesAre(keys: seq<string>, pairs: map<string, Pair>, seen: set<CanvasRun>, e: Edge)
    requires PairsBooked(pairs, seen) && (forall k :: k in keys <==> k in pairs)
    ensures e in PairEdges(keys, pairs) <==> exists r :: r in seen && GroundEdge(r, e)
  {
    hide PairOf, GroundNodeId;
    if e in PairEdges(keys, pairs) {
      var i :| 0 <= i < |keys| && PairEdges(keys, pairs)[i] == e;
      assert keys[i] in pairs && PairSeen(keys[i], seen);
      var r :| r in seen && r.replay.Some? && PairOf(r) == keys[i];
      assert GroundEdge(r, e);
    }
    if r :| r in seen && GroundEdge(r, e) {
      assert PairOf(r) in keys;
      var i :| 0 <= i < |keys| && keys[i] == PairOf(r);
      assert PairEdges(keys, pairs)[i] == e;
    }
  }

  lemma NamedByRuns(runs: seq<CanvasRun>, positions: seq<seq<nat>>, decks: seq<seq<CanvasRun>>, plans: set<string>, k: string)
    requires AllDealt(runs, positions, decks)
    ensures WeightOf(decks, Grouped(), k) > 0 <==> k in GroupsOf(runs)
    ensures WeightOf(decks, Planned(plans), k) > 0 <==> k in PlansOf(runs, plans)
  {
    hide AllDealt, WeightOf, Grouped, Planned, AllOf;
    DealtAll(runs, positions, decks);
    WeighsIffNamed(decks, Grouped(), k);
    WeighsIffNamed(decks, Planned(plans), k);
    forall c | 0 <= c < |decks| ensures Grouped()(decks[c]) == GroupsOf(decks[c]) && Planned(plans)(decks[c]) == PlansOf(decks[c], plans) {
      GroupedIs(decks[c]);
      PlannedIs(decks[c], plans);
    }
    forall r ensures r in runs <==> exists c :: 0 <= c < |decks| && r in decks[c] { InAllOf(decks, r); }
    if k in GroupsOf(runs) {
      var r :| r in runs && r.run.groupId == Some(k);
      var c :| 0 <= c < |decks| && r in decks[c];
      assert k in GroupsOf(decks[c]);
    }
    if k in PlansOf(runs, plans) {
      var r :| r in runs && r.planRef == Some(k);
      var c :| 0 <= c < |decks| && r in decks[c];
      assert k in PlansOf(decks[c], plans);
    }
  }

  /** The nodes built, by kind, before they are sorted and parted. */
  datatype Parts = Parts(decks: seq<Node>, sessions: seq<Node>, plans: seq<Node>, pairs: seq<Node>, grounds: seq<Node>)

  function All(p: Parts): seq<Node> {
    p.decks + p.sessions + p.plans + p.pairs + p.grounds
  }

  lemma WeightedShows(kind: NodeKind, keys: seq<string>, weights: map<string, nat>, id: string)
    requires kind.SessionNode? || kind.PlanNode? || kind.GroundNode?
    ensures (exists n :: n in Weighted(kind, keys, weights) && OnMap(n) && n.id == id)
      <==> exists k :: k in keys && Got(weights, k) > 0 && id == IdFor(kind, k)
  {
    hide IdFor, Got;
    var nodes := Weighted(kind, keys, weights);
    if n :| n in nodes && OnMap(n) && n.id == id {
      var i :| 0 <= i < |nodes| && nodes[i] == n;
      assert keys[i] in keys;
    }
    if k :| k in keys && Got(weights, k) > 0 && id == IdFor(kind, k) {
      var i :| 0 <= i < |keys| && keys[i] == k;
      assert nodes[i] in nodes && OnMap(nodes[i]);
    }
  }

  lemma PairsShow(keys: seq<string>, pairs: map<string, Pair>, seen: set<CanvasRun>, id: string)
    requires PairsBooked(pairs, seen) && forall k :: k in keys <==> k in pairs
    ensures (exists n :: n in PairNodes(keys, pairs) && OnMap(n) && n.id == id) <==> PairSeen(id, seen)
  {
    hide PairOf;
    var nodes := PairNodes(keys, pairs);
    if n :| n in nodes && OnMap(n) && n.id == id {
      var i :| 0 <= i < |nodes| && nodes[i] == n;
      assert keys[i] in pairs;
    }
    if PairSeen(id, seen) {
      var r :| r in seen && r.replay.Some? && PairOf(r) == id;
      assert id in keys;
      var i :| 0 <= i < |keys| && keys[i] == id;
      assert nodes[i] in nodes && OnMap(nodes[i]);
    }
  }

  lemma GroundsShow(keys: seq<string>, grounds: map<string, nat>, seen: set<CanvasRun>, id: string)
    requires GroundsBooked(grounds, seen) && forall k :: k in keys <==> k in grounds
    ensures (exists k :: k in keys && Got(grounds, k) > 0 && id == IdFor(GroundNode, k))
      <==> exists r :: r in seen && r.replay.Some? && id == GroundNodeId(r.run.project)
  {
    if k :| k in keys && Got(grounds, k) > 0 && id == IdFor(GroundNode, k) {
      assert k in grounds && GroundSeen(k, seen);
    }
    if r :| r in seen && r.replay.Some? && id == GroundNodeId(r.run.project) {
      assert r.run.project in keys && Got(grounds, r.run.project) > 0 && id == IdFor(GroundNode, r.run.project);
    }
  }

  lemma DecksShow(runs: seq<CanvasRun>, positions: seq<seq<nat>>, decks: seq<seq<CanvasRun>>, nodes: seq<Node>, id: string)
    requires AllDealt(runs, positions, decks)
    requires |nodes| == |decks| && forall c :: 0 <= c < |decks| ==> nodes[c] == DeckNode(decks[c])
    ensures (exists n :: n in nodes && OnMap(n) && n.id == id) <==> exists i :: 0 <= i < |runs| && id == RunIdAt(runs, i)
  {
    hide RunIdAt, RunNodeId, DealtAt, Components;
    if n :| n in nodes && OnMap(n) && n.id == id {
      var c :| 0 <= c < |nodes| && nodes[c] == n;
      NoEmptyDeck(runs, positions, decks, c);
      var i := SomePosition(runs, positions, decks, c, decks[c][0]);
      DeckNodeId(runs, positions, c, i, decks[c]);
      assert id == RunIdAt(runs, i);
    }
    if i :| 0 <= i < |runs| && id == RunIdAt(runs, i) {
      var c := SomeDeck(runs, positions, decks, i);
      DeckNodeId(runs, positions, c, i, decks[c]);
      assert nodes[c] in nodes;
    }
  }

  /** Deck by deck what the runs yield, given the decks in their order. */
  method GatherAll(runs: seq<CanvasRun>, plans: set<string>, text: (string, string) -> bool)
    returns (g: Gathered, ghost positions: seq<seq<nat>>, ghost decks: seq<seq<CanvasRun>>)
    requires TotalPreorder(text)
    ensures AllDealt(runs, positions, decks) && Holding(g, decks, plans)
  {
    hide *;
    var found := GroupPositions(Base(runs));
    positions := found;
    g := Gathered([], [], map[], map[], map[], map[]);
    decks := [];
    HoldingNothing(plans);
    NothingDealt(runs, found);
    for d := 0 to |found|
      invariant |decks| == d && Dealt(runs, found, decks) && Holding(g, decks, plans)
    {
      PositionsIn(runs, found, d);
      var held := Members(runs, found[d]);
      var ordered := OrderedDeck(held, text);
      DealtOne(runs, found, decks, ordered);
      g := AddDeck(g, ordered, plans, decks);
      decks := decks + [ordered];
    }
    AllDealtIf(runs, found, decks);
  }

  lemma NothingDealt(runs: seq<CanvasRun>, positions: seq<seq<nat>>)
    ensures Dealt(runs, positions, [])
  {}

  lemma AllDealtIf(runs: seq<CanvasRun>, positions: seq<seq<nat>>, decks: seq<seq<CanvasRun>>)
    requires Components(Base(runs), positions) && Dealt(runs, positions, decks) && |decks| == |positions|
    ensures AllDealt(runs, positions, decks)
  {}

  lemma PositionsIn(runs: seq<CanvasRun>, positions: seq<seq<nat>>, d: nat)
    requires Components(Base(runs), positions) && d < |positions|
    ensures forall k :: 0 <= k < |positions[d]| ==> positions[d][k] < |runs|
  {
    hide Together;
    assert Rising(positions[d], |runs|);
  }

  lemma DealtOne(runs: seq<CanvasRun>, positions: seq<seq<nat>>, decks: seq<seq<CanvasRun>>, ordered: seq<CanvasRun>)
    requires Dealt(runs, positions, decks) && |decks| < |positions|
    requires forall k :: 0 <= k < |positions[|decks|]| ==> positions[|decks|][k] < |runs|
    requires multiset(ordered) == multiset(Members(runs, positions[|decks|]))
    ensures Dealt(runs, positions, decks + [ordered])
  {
    assert |multiset(ordered)| == |ordered|;
    assert DealtAt(runs, positions[|decks|], ordered);
    forall c | 0 <= c < |decks + [ordered]| ensures DealtAt(runs, positions[c], (decks + [ordered])[c]) {
      if c < |decks| { assert (decks + [ordered])[c] == decks[c]; }
    }
  }

  function ById(text: (string, string) -> bool): (Node, Node) -> bool {
    (a: Node, b: Node) => text(a.id, b.id)
  }

  function ByEnds(text: (string, string) -> bool): (Edge, Edge) -> bool {
    (a: Edge, b: Edge) => text(a.from + "|" + a.to, b.from + "|" + b.to)
  }

  lemma EndsOrder(text: (string, string) -> bool)
    requires TotalPreorder(text)
    ensures TotalPreorder(ById(text)) && TotalPreorder(ByEnds(text))
  {
    var n, e := ById(text), ByEnds(text);
    forall a, b ensures n(a, b) || n(b, a) { TextChain(text, a.id, b.id, a.id); }
    forall a, b, c | n(a, b) && n(b, c) ensures n(a, c) { TextChain(text, a.id, b.id, c.id); }
    forall a, b ensures e(a, b) || e(b, a) { TextChain(text, a.from + "|" + a.to, b.from + "|" + b.to, ""); }
    forall a, b, c | e(a, b) && e(b, c) ensures e(a, c) { TextChain(text, a.from + "|" + a.to, b.from + "|" + b.to, c.from + "|" + c.to); }
  }

  /** The parts show exactly the nodes that the runs place. */
  lemma PartsShow(runs: seq<CanvasRun>, positions: seq<seq<nat>>, decks: seq<seq<CanvasRun>>, g: Gathered,
                  groups: seq<string>, plans: seq<string>, pairs: seq<string>, grounds: seq<string>, id: string)
    requires AllDealt(runs, positions, decks) && Holding(g, decks, Named(plans))
    requires (forall k :: k in GroupsOf(runs) ==> k in groups)
    requires (forall k :: k in pairs <==> k in g.pairs) && (forall k :: k in grounds <==> k in g.grounds)
    ensures (exists n :: n in All(PartsOf(g, groups, plans, pairs, grounds)) && OnMap(n) && n.id == id) <==> IsPlaced(runs, Named(plans), id)
  {
    hide *;
    var seen := AllOf(decks);
    HoldingParts(g, decks, Named(plans));
    DealtAll(runs, positions, decks);
    DecksShow(runs, positions, decks, g.nodes, id);
    WeightedShows(SessionNode, groups, g.groupWeight, id);
    WeightedShows(PlanNode, plans, g.planWeight, id);
    WeightedShows(GroundNode, grounds, g.grounds, id);
    PairsShow(pairs, g.pairs, seen, id);
    GroundsShow(grounds, g.grounds, seen, id);
    forall k ensures Got(g.groupWeight, k) > 0 <==> k in GroupsOf(runs) { NamedByRuns(runs, positions, decks, Named(plans), k); }
    forall k ensures Got(g.planWeight, k) > 0 <==> k in PlansOf(runs, Named(plans)) { NamedByRuns(runs, positions, decks, Named(plans), k); }
    InAll(PartsOf(g, groups, plans, pairs, grounds), id);
    PlacedByKind(runs, plans, groups, seen, id, g.groupWeight, g.planWeight);
    PartsAre(g, groups, plans, pairs, grounds);
  }

  function Named(plans: seq<string>): set<string> {
    set p | p in plans
  }

  function PartsOf(g: Gathered, groups: seq<string>, plans: seq<string>, pairs: seq<string>, grounds: seq<string>): Parts
    requires forall k :: k in pairs <==> k in g.pairs
  {
    Parts(g.nodes, Weighted(SessionNode, groups, g.groupWeight), Weighted(PlanNode, plans, g.planWeight),
          PairNodes(pairs, g.pairs), Weighted(GroundNode, grounds, g.grounds))
  }

  lemma PartsAre(g: Gathered, groups: seq<string>, plans: seq<string>, pairs: seq<string>, grounds: seq<string>)
    requires forall k :: k in pairs <==> k in g.pairs
    ensures var p := PartsOf(g, groups, plans, pairs, grounds);
      && p.decks == g.nodes && p.sessions == Weighted(SessionNode, groups, g.groupWeight) && p.plans == Weighted(PlanNode, plans, g.planWeight)
      && p.pairs == PairNodes(pairs, g.pairs) && p.grounds == Weighted(GroundNode, grounds, g.grounds)
  {
    hide Weighted, PairNodes;
  }

  lemma InAll(p: Parts, id: string)
    ensures (exists n :: n in All(p) && OnMap(n) && n.id == id)
      <==> (exists n :: n in p.decks && OnMap(n) && n.id == id) || (exists n :: n in p.sessions && OnMap(n) && n.id == id)
           || (exists n :: n in p.plans && OnMap(n) && n.id == id) || (exists n :: n in p.pairs && OnMap(n) && n.id == id)
           || (exists n :: n in p.grounds && OnMap(n) && n.id == id)
  {
    hide OnMap;
    if n :| n in All(p) && OnMap(n) && n.id == id {
      assert n in p.decks || n in p.sessions || n in p.plans || n in p.pairs || n in p.grounds;
    }
    if n :| n in p.decks && OnMap(n) && n.id == id { assert n in All(p); }
    if n :| n in p.sessions && OnMap(n) && n.id == id { assert n in All(p); }
    if n :| n in p.plans && OnMap(n) && n.id == id { assert n in All(p); }
    if n :| n in p.pairs && OnMap(n) && n.id == id { assert n in All(p); }
    if n :| n in p.grounds && OnMap(n) && n.id == id { assert n in All(p); }
  }

  lemma PlacedByKind(runs: seq<CanvasRun>, plans: seq<string>, groups: seq<string>, seen: set<CanvasRun>, id: string,
                     groupWeight: map<string, nat>, planWeight: map<string, nat>)
    requires (forall r :: r in seen <==> r in runs) && forall k :: k in GroupsOf(runs) ==> k in groups
    requires forall k :: Got(groupWeight, k) > 0 <==> k in GroupsOf(runs)
    requires forall k :: Got(planWeight, k) > 0 <==> k in PlansOf(runs, Named(plans))
    ensures IsPlaced(runs, Named(plans), id)
      <==> ((exists i :: 0 <= i < |runs| && id == RunIdAt(runs, i))
            || (exists k :: k in groups && Got(groupWeight, k) > 0 && id == IdFor(SessionNode, k))
            || (exists k :: k in plans && Got(planWeight, k) > 0 && id == IdFor(PlanNode, k))
            || PairSeen(id, seen)
            || (exists r :: r in seen && r.replay.Some? && id == GroundNodeId(r.run.project)))
  {
    hide PairOf, RunIdAt, Got, SessionNodeId, PlanNodeId, GroundNodeId;
    if r :| r in runs && RunPlaces(Named(plans), r, id) {
      if r.run.groupId.Some? && id == SessionNodeId(r.run.groupId.value) {
        assert r.run.groupId.value in GroupsOf(runs) && id == IdFor(SessionNode, r.run.groupId.value);
      } else if r.planRef.Some? && r.planRef.value in Named(plans) && id == PlanNodeId(r.planRef.value) {
        assert r.planRef.value in PlansOf(runs, Named(plans)) && id == IdFor(PlanNode, r.planRef.value);
      } else {
        assert r in seen;
      }
    }
    if k :| k in groups && Got(groupWeight, k) > 0 && id == IdFor(SessionNode, k) {
      assert k in GroupsOf(runs);
      var r :| r in runs && r.run.groupId == Some(k);
      assert RunPlaces(Named(plans), r, id);
    }
    if k :| k in plans && Got(planWeight, k) > 0 && id == IdFor(PlanNode, k) {
      assert k in PlansOf(runs, Named(plans));
      var r :| r in runs && r.planRef == Some(k);
      assert RunPlaces(Named(plans), r, id);
    }
    if PairSeen(id, seen) {
      var r :| r in seen && r.replay.Some? && PairOf(r) == id;
      assert RunPlaces(Named(plans), r, id);
    }
    if r :| r in seen && r.replay.Some? && id == GroundNodeId(r.run.project) {
      assert RunPlaces(Named(plans), r, id);
    }
  }

  lemma EdgesAre(runs: seq<CanvasRun>, positions: seq<seq<nat>>, decks: seq<seq<CanvasRun>>, g: Gathered, plans: set<string>, pairs: seq<string>, e: Edge)
    requires AllDealt(runs, positions, decks) && Holding(g, decks, plans) && forall k :: k in pairs <==> k in g.pairs
    ensures e in g.edges + PairEdges(pairs, g.pairs) <==> IsEdge(runs, plans, e)
  {
    hide *;
    HoldingParts(g, decks, plans);
    DealtAll(runs, positions, decks);
    PushedIsDeckEdge(runs, positions, decks, plans, e);
    PairEdgesAre(pairs, g.pairs, AllOf(decks), e);
    IsEdgeIs(runs, plans, e, AllOf(decks));
  }

  lemma IsEdgeIs(runs: seq<CanvasRun>, plans: set<string>, e: Edge, seen: set<CanvasRun>)
    requires forall r :: r in seen <==> r in runs
    ensures IsEdge(runs, plans, e) <==> (exists i :: DeckEdge(runs, plans, i, e)) || exists r :: r in seen && GroundEdge(r, e)
  {
    hide DeckEdge, GroundEdge;
  }

  /** buildCanvasGraph: the nodes on the map, the edges between them, and what nothing places yet. */
  method BuildCanvasGraph(runs: seq<CanvasRun>, summaries: set<string>, plans: seq<string>, text: (string, string) -> bool) returns (graph: Graph)
    requires TotalPreorder(text)
    ensures forall id :: Shows(graph.nodes, id) <==> IsPlaced(runs, Named(plans), id)
    ensures forall e :: e in graph.edges <==> IsEdge(runs, Named(plans), e)
    ensures forall k :: k in summaries ==> Shows(graph.nodes + graph.unplaced, SessionNodeId(k))
    ensures forall k :: k in plans ==> Shows(graph.nodes + graph.unplaced, PlanNodeId(k))
    ensures forall n :: n in graph.unplaced ==> n.weight == 0 && !n.kind.RunNode?
  {
    hide *;
    ghost var positions, decks;
    var g;
    g, positions, decks := GatherAll(runs, Named(plans), text);
    var groups := SortedKeys(summaries + GroupsOf(runs));
    var pairs := SortedKeys(g.pairs.Keys);
    var grounds := SortedKeys(g.grounds.Keys);
    ListedAscend(groups, summaries + GroupsOf(runs));
    ListedAscend(pairs, g.pairs.Keys);
    ListedAscend(grounds, g.grounds.Keys);
    var nodes := All(PartsOf(g, groups, plans, pairs, grounds));
    var edges := g.edges + PairEdges(pairs, g.pairs);
    EndsOrder(text);
    SortIsSortedPermutation(nodes, ById(text));
    SortIsSortedPermutation(edges, ByEnds(text));
    var ordered := Sort(nodes, ById(text));
    graph := Graph(Chosen(ordered, true), Sort(edges, ByEnds(text)), Chosen(ordered, false));
    forall id ensures Shows(graph.nodes, id) <==> IsPlaced(runs, Named(plans), id) {
      PartsShow(runs, positions, decks, g, groups, plans, pairs, grounds, id);
      ShowsChosen(nodes, ordered, id);
    }
    forall e ensures e in graph.edges <==> IsEdge(runs, Named(plans), e) { EdgesAre(runs, positions, decks, g, Named(plans), pairs, e); }
    forall k | k in summaries ensures Shows(graph.nodes + graph.unplaced, SessionNodeId(k)) {
      KeptSomewhere(g, groups, plans, pairs, grounds, SessionNode, k);
      ShowsEither(nodes, ordered, IdFor(SessionNode, k));
      IdsFor(k);
    }
    forall k | k in plans ensures Shows(graph.nodes + graph.unplaced, PlanNodeId(k)) {
      KeptSomewhere(g, groups, plans, pairs, grounds, PlanNode, k);
      ShowsEither(nodes, ordered, IdFor(PlanNode, k));
      IdsFor(k);
    }
    forall n | n in graph.unplaced ensures n.weight == 0 && !n.kind.RunNode? { OffMap(n); }
  }

  lemma OffMap(n: Node)
    ensures !OnMap(n) ==> n.weight == 0 && !n.kind.RunNode?
  {}

  lemma IdsFor(k: string)
    ensures IdFor(SessionNode, k) == SessionNodeId(k) && IdFor(PlanNode, k) == PlanNodeId(k)
  {}

  lemma ShowsChosen(nodes: seq<Node>, ordered: seq<Node>, id: string)
    requires forall n :: n in ordered <==> n in nodes
    ensures Shows(Chosen(ordered, true), id) <==> exists n :: n in nodes && OnMap(n) && n.id == id
  {
    hide OnMap, Chosen;
  }

  lemma ShowsEither(nodes: seq<Node>, ordered: seq<Node>, id: string)
    requires (forall n :: n in ordered <==> n in nodes) && Shows(nodes, id)
    ensures Shows(Chosen(ordered, true) + Chosen(ordered, false), id)
  {
    hide OnMap, Chosen;
    var n :| n in nodes && n.id == id;
    assert n in Chosen(ordered, true) || n in Chosen(ordered, false);
    assert n in Chosen(ordered, true) + Chosen(ordered, false);
  }

  lemma KeptSomewhere(g: Gathered, groups: seq<string>, plans: seq<string>, pairs: seq<string>, grounds: seq<string>, kind: NodeKind, k: string)
    requires forall k :: k in pairs <==> k in g.pairs
    requires (kind.SessionNode? && k in groups) || (kind.PlanNode? && k in plans)
    ensures Shows(All(PartsOf(g, groups, plans, pairs, grounds)), IdFor(kind, k))
  {
    hide IdFor, Got;
    PartsAre(g, groups, plans, pairs, grounds);
    var p := PartsOf(g, groups, plans, pairs, grounds);
    var keys, nodes := if kind.SessionNode? then groups else plans, if kind.SessionNode? then p.sessions else p.plans;
    var i :| 0 <= i < |keys| && keys[i] == k;
    assert nodes[i] in nodes && nodes[i].id == IdFor(kind, k);
    assert nodes[i] in All(p);
  }
}
