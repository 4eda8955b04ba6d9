/** Building the execution graph from the runs, and what is built. */
module CanvasBuild {
  import opened Text
  import opened Sorting
  import opened Order
  import opened SessionStacks
  import opened DeckOrder
  import opened CanvasGraph

  // ----- building it: edges

  /** One edge from id to each target. */
  method Fan(id: string, targets: seq<string>, kind: EdgeKind) returns (edges: seq<Edge>)
    ensures forall e :: e in edges <==> e.from == id && e.to in targets && e.kind == kind
  {
    edges := [];
    for k := 0 to |targets|
      invariant |edges| == k && forall m :: 0 <= m < k ==> edges[m] == Edge(id, targets[m], kind)
    {
      edges := edges + [Edge(id, targets[k], kind)];
    }
    forall e: Edge | e.from == id && e.to in targets && e.kind == kind ensures e in edges {
      var m :| 0 <= m < |targets| && targets[m] == e.to;
      assert edges[m] == e;
    }
  }

  function GroupsOf(deck: seq<CanvasRun>): set<string> {
    set r | r in deck && r.run.groupId.Some? :: r.run.groupId.value
  }

  function PlansOf(deck: seq<CanvasRun>, plans: set<string>): set<string> {
    set r | r in deck && r.planRef.Some? && r.planRef.value in plans :: r.planRef.value
  }

  function PairsOf(deck: seq<CanvasRun>): set<string> {
    set r | r in deck && r.replay.Some? :: PairOf(r)
  }

  ghost predicate Several(s: set<string>) {
    exists x, y :: x in s && y in s && x != y
  }

  lemma ManyListed(keys: seq<string>, s: set<string>)
    requires Lists(keys, s)
    ensures |keys| > 1 <==> Several(s)
  {
    if |keys| > 1 {
      Irreflexive(keys[0]);
      assert Less(keys[0], keys[1]) && keys[0] in s && keys[1] in s;
    }
    if x, y :| x in s && y in s && x != y {
      var i :| 0 <= i < |keys| && keys[i] == x;
      var j :| 0 <= j < |keys| && keys[j] == y;
    }
  }

  function Kind(several: bool): EdgeKind {
    if several then Continuation else Membership
  }

  /** A deck's edges: to its pairs, its sessions, and the registered plans it names. */
  method DeckEdges(id: string, deck: seq<CanvasRun>, plans: set<string>) returns (edges: seq<Edge>)
    ensures forall e :: e in edges <==> exists r :: r in deck && RunEdge(id, Kind(Several(GroupsOf(deck))), plans, r, e)
  {
    hide *;
    var pairs := SortedKeys(PairsOf(deck));
    var groups := SortedKeys(GroupsOf(deck));
    var named := SortedKeys(PlansOf(deck, plans));
    var kind := Kind(|groups| > 1);
    ManyListed(groups, GroupsOf(deck));
    var toPairs := Fan(id, pairs, ReplayEdge);
    var toGroups := Fan(id, SessionIds(groups), kind);
    var toPlans := Fan(id, PlanIds(named), PlanEdge);
    edges := toPairs + toGroups + toPlans;
    forall e ensures e in edges <==> exists r :: r in deck && RunEdge(id, kind, plans, r, e) {
      EdgeKinds(id, deck, plans, kind, pairs, groups, named, e);
    }
  }

  function SessionIds(groups: seq<string>): (ids: seq<string>)
    ensures |ids| == |groups| && forall i :: 0 <= i < |ids| ==> ids[i] == SessionNodeId(groups[i])
  {
    seq(|groups|, i requires 0 <= i < |groups| => SessionNodeId(groups[i]))
  }

  function PlanIds(named: seq<string>): (ids: seq<string>)
    ensures |ids| == |named| && forall i :: 0 <= i < |ids| ==> ids[i] == PlanNodeId(named[i])
  {
    seq(|named|, i requires 0 <= i < |named| => PlanNodeId(named[i]))
  }

  lemma EdgeKinds(id: string, deck: seq<CanvasRun>, plans: set<string>, kind: EdgeKind, pairs: seq<string>, groups: seq<string>, named: seq<string>, e: Edge)
    requires Lists(pairs, PairsOf(deck)) && Lists(groups, GroupsOf(deck)) && Lists(named, PlansOf(deck, plans))
    ensures (exists r :: r in deck && RunEdge(id, kind, plans, r, e))
      <==> e.from == id && ((e.to in pairs && e.kind == ReplayEdge) || (e.to in SessionIds(groups) && e.kind == kind) || (e.to in PlanIds(named) && e.kind == PlanEdge))
  {
    hide PairOf, SessionNodeId, PlanNodeId;
    if r :| r in deck && RunEdge(id, kind, plans, r, e) {
      if r.replay.Some? && e == Edge(id, PairOf(r), ReplayEdge) {
        assert e.to in PairsOf(deck);
      } else if r.run.groupId.Some? && e == Edge(id, SessionNodeId(r.run.groupId.value), kind) {
        assert r.run.groupId.value in GroupsOf(deck);
        var i :| 0 <= i < |groups| && groups[i] == r.run.groupId.value;
        assert SessionIds(groups)[i] == e.to;
      } else {
        assert r.planRef.value in PlansOf(deck, plans);
        var i :| 0 <= i < |named| && named[i] == r.planRef.value;
        assert PlanIds(named)[i] == e.to;
      }
    }
    if e.from == id && e.to in pairs && e.kind == ReplayEdge {
      assert e.to in PairsOf(deck);
      var r :| r in deck && r.replay.Some? && PairOf(r) == e.to;
      assert RunEdge(id, kind, plans, r, e);
    }
    if e.from == id && e.to in SessionIds(groups) && e.kind == kind {
      var i :| 0 <= i < |groups| && SessionIds(groups)[i] == e.to;
      assert groups[i] in GroupsOf(deck);
      var r :| r in deck && r.run.groupId.Some? && r.run.groupId.value == groups[i];
      assert RunEdge(id, kind, plans, r, e);
    }
    if e.from == id && e.to in PlanIds(named) && e.kind == PlanEdge {
      var i :| 0 <= i < |named| && PlanIds(named)[i] == e.to;
      assert named[i] in PlansOf(deck, plans);
      var r :| r in deck && r.planRef.Some? && r.planRef.value in plans && r.planRef.value == named[i];
      assert RunEdge(id, kind, plans, r, e);
    }
  }

  // ----- weights

  function Got(weights: map<string, nat>, key: string): nat {
    if key in weights then weights[key] else 0
  }

  /** n more for each key. */
  method AddWeight(weights: map<string, nat>, keys: seq<string>, n: nat) returns (after: map<string, nat>)
    requires Ascending(keys)
    ensures forall k :: Got(after, k) == Got(weights, k) + if k in keys then n else 0
  {
    after := weights;
    for i := 0 to |keys|
      invariant forall k :: Got(after, k) == Got(weights, k) + if k in keys[..i] then n else 0
    {
      KeyIsNew(keys, i);
      assert keys[..i + 1] == keys[..i] + [keys[i]];
      after := after[keys[i] := Got(after, keys[i]) + n];
    }
    assert keys[..|keys|] == keys;
  }

  lemma KeyIsNew(keys: seq<string>, i: nat)
    requires Ascending(keys) && i < |keys|
    ensures keys[i] !in keys[..i]
  {
    Irreflexive(keys[i]);
  }

  type Naming = seq<CanvasRun> -> set<string>

  function Grouped(): Naming { (deck: seq<CanvasRun>) => GroupsOf(deck) }
  function Planned(plans: set<string>): Naming { (deck: seq<CanvasRun>) => PlansOf(deck, plans) }

  /** The runs of every deck that names the key. */
  function WeightOf(decks: seq<seq<CanvasRun>>, named: Naming, key: string): nat {
    if decks == [] then 0
    else WeightOf(decks[..|decks| - 1], named, key) + if key in named(decks[|decks| - 1]) then |decks[|decks| - 1]| else 0
  }

  lemma WeightStep(decks: seq<seq<CanvasRun>>, deck: seq<CanvasRun>, named: Naming, key: string)
    ensures WeightOf(decks + [deck], named, key) == WeightOf(decks, named, key) + if key in named(deck) then |deck| else 0
  {
    assert (decks + [deck])[..|decks|] == decks;
  }

  lemma {:induction false} WeighsIffNamed(decks: seq<seq<CanvasRun>>, named: Naming, key: string)
    requires forall c :: 0 <= c < |decks| ==> decks[c] != []
    ensures WeightOf(decks, named, key) > 0 <==> exists c :: 0 <= c < |decks| && key in named(decks[c])
  {
    if decks != [] {
      var n := |decks| - 1;
      WeighsIffNamed(decks[..n], named, key);
      if c :| 0 <= c < n && key in named(decks[..n][c]) { assert key in named(decks[c]); }
      if c :| 0 <= c < |decks| && key in named(decks[c]) {
        if c < n { assert key in named(decks[..n][c]); }
      }
    }
  }

  // ----- pairs and proving grounds

  datatype Pair = Pair(project: string, weight: nat)

  ghost predicate PairsBooked(pairs: map<string, Pair>, seen: set<CanvasRun>) {
    && (forall r :: r in seen && r.replay.Some? ==> PairOf(r) in pairs && pairs[PairOf(r)].project == r.run.project)
    && (forall id :: id in pairs ==> pairs[id].weight > 0 && PairSeen(id, seen))
  }

  ghost predicate PairSeen(id: string, seen: set<CanvasRun>) {
    exists r :: r in seen && r.replay.Some? && PairOf(r) == id
  }

  ghost predicate GroundsBooked(grounds: map<string, nat>, seen: set<CanvasRun>) {
    && (forall r :: r in seen && r.replay.Some? ==> r.run.project in grounds)
    && (forall p :: p in grounds ==> grounds[p] > 0 && GroundSeen(p, seen))
  }

  ghost predicate GroundSeen(project: string, seen: set<CanvasRun>) {
    exists r :: r in seen && r.replay.Some? && r.run.project == project
  }

  /** Two replays of one pair belong to one project. */
  lemma PairsAgree(r: CanvasRun, s: CanvasRun)
    requires r.replay.Some? && s.replay.Some? && PairOf(r) == PairOf(s)
    ensures r.run.project == s.run.project
  {
    hide PairNodeId;
    PairIdReads(r.run.project, r.replay.value.itemId, r.replay.value.repetition, s.run.project, s.replay.value.itemId, s.replay.value.repetition);
  }

  function BookPair(pairs: map<string, Pair>, r: CanvasRun): map<string, Pair>
    requires r.replay.Some?
  {
    pairs[PairOf(r) := Pair(r.run.project, (if PairOf(r) in pairs then pairs[PairOf(r)].weight else 0) + 1)]
  }

  lemma PairBooks(pairs: map<string, Pair>, seen: set<CanvasRun>, r: CanvasRun)
    requires PairsBooked(pairs, seen) && r.replay.Some?
    ensures PairsBooked(BookPair(pairs, r), seen + {r})
  {
    hide PairOf;
    var after := BookPair(pairs, r);
    forall s | s in seen + {r} && s.replay.Some? ensures PairOf(s) in after && after[PairOf(s)].project == s.run.project {
      if PairOf(s) == PairOf(r) { PairsAgree(s, r); }
    }
    forall id | id in after ensures after[id].weight > 0 && PairSeen(id, seen + {r}) {
      if id == PairOf(r) {
        assert r in seen + {r};
      } else {
        var s :| s in seen && s.replay.Some? && PairOf(s) == id;
        assert s in seen + {r};
      }
    }
  }

  lemma GroundBooks(grounds: map<string, nat>, seen: set<CanvasRun>, r: CanvasRun)
    requires GroundsBooked(grounds, seen) && r.replay.Some?
    ensures GroundsBooked(grounds[r.run.project := Got(grounds, r.run.project) + 1], seen + {r})
  {
    var after := grounds[r.run.project := Got(grounds, r.run.project) + 1];
    forall p | p in after ensures after[p] > 0 && GroundSeen(p, seen + {r}) {
      if p == r.run.project {
        assert r in seen + {r};
      } else {
        var s :| s in seen && s.replay.Some? && s.run.project == p;
        assert s in seen + {r};
      }
    }
  }

  lemma PlainBooks(pairs: map<string, Pair>, grounds: map<string, nat>, seen: set<CanvasRun>, r: CanvasRun)
    requires PairsBooked(pairs, seen) && GroundsBooked(grounds, seen) && r.replay.None?
    ensures PairsBooked(pairs, seen + {r}) && GroundsBooked(grounds, seen + {r})
  {
    hide PairOf;
    forall id | id in pairs ensures PairSeen(id, seen + {r}) {
      var s :| s in seen && s.replay.Some? && PairOf(s) == id;
      assert s in seen + {r};
    }
    forall p | p in grounds ensures GroundSeen(p, seen + {r}) {
      var s :| s in seen && s.replay.Some? && s.run.project == p;
      assert s in seen + {r};
    }
  }

  /** The replays of one deck, counted under their pair and their project. */
  method Book(pairs0: map<string, Pair>, grounds0: map<string, nat>, deck: seq<CanvasRun>, ghost seen: set<CanvasRun>)
    returns (pairs: map<string, Pair>, grounds: map<string, nat>)
    requires PairsBooked(pairs0, seen) && GroundsBooked(grounds0, seen)
    ensures PairsBooked(pairs, seen + Elements(deck)) && GroundsBooked(grounds, seen + Elements(deck))
  {
    hide *;
    pairs, grounds := pairs0, grounds0;
    NoElements(deck[..0]);
    assert seen + Elements(deck[..0]) == seen;
    for i := 0 to |deck|
      invariant PairsBooked(pairs, seen + Elements(deck[..i])) && GroundsBooked(grounds, seen + Elements(deck[..i]))
    {
      var r := deck[i];
      ghost var before := seen + Elements(deck[..i]);
      OneMoreElement(deck, i);
      assert seen + Elements(deck[..i + 1]) == before + {r};
      if r.replay.Some? {
        PairBooks(pairs, before, r);
        GroundBooks(grounds, before, r);
        pairs := BookPair(pairs, r);
        grounds := grounds[r.run.project := Got(grounds, r.run.project) + 1];
      } else {
        PlainBooks(pairs, grounds, before, r);
      }
    }
    assert deck[..|deck|] == deck;
  }

  ghost function Elements(deck: seq<CanvasRun>): set<CanvasRun> {
    set r | r in deck
  }

  lemma NoElements(deck: seq<CanvasRun>)
    requires deck == []
    ensures Elements(deck) == {}
  {}

  lemma OneMoreElement(deck: seq<CanvasRun>, i: nat)
    requires i < |deck|
    ensures Elements(deck[..i + 1]) == Elements(deck[..i]) + {deck[i]}
  {
    assert deck[..i + 1] == deck[..i] + [deck[i]];
  }

  // ----- one deck after another

  function Members(runs: seq<CanvasRun>, deck: seq<nat>): (r: seq<CanvasRun>)
    requires forall k :: 0 <= k < |deck| ==> deck[k] < |runs|
    ensures |r| == |deck| && forall k :: 0 <= k < |r| ==> r[k] == runs[deck[k]]
  {
    seq(|deck|, k requires 0 <= k < |deck| => runs[deck[k]])
  }

  function IdsOf(deck: seq<CanvasRun>): (ids: seq<string>)
    ensures |ids| == |deck| && forall i :: 0 <= i < |ids| ==> ids[i] == deck[i].run.sessionId
  {
    seq(|deck|, i requires 0 <= i < |deck| => deck[i].run.sessionId)
  }

  function DeckNode(deck: seq<CanvasRun>): Node {
    Node(RunNodeId(IdsOf(deck)), RunNode, |deck|)
  }

  /** The edges the decks have pushed. */
  ghost predicate Pushed(decks: seq<seq<CanvasRun>>, plans: set<string>, e: Edge) {
    exists c :: 0 <= c < |decks| && PushedBy(decks[c], plans, e)
  }

  ghost predicate PushedBy(deck: seq<CanvasRun>, plans: set<string>, e: Edge) {
    exists r :: r in deck && RunEdge(RunNodeId(IdsOf(deck)), Kind(Several(GroupsOf(deck))), plans, r, e)
  }

  lemma PushedStep(decks: seq<seq<CanvasRun>>, deck: seq<CanvasRun>, plans: set<string>, e: Edge)
    ensures Pushed(decks + [deck], plans, e) <==> Pushed(decks, plans, e) || PushedBy(deck, plans, e)
  {
    hide PushedBy;
    if c :| 0 <= c < |decks| && PushedBy(decks[c], plans, e) { assert (decks + [deck])[c] == decks[c]; }
    if PushedBy(deck, plans, e) { assert (decks + [deck])[|decks|] == deck; }
  }

  ghost function AllOf(decks: seq<seq<CanvasRun>>): set<CanvasRun> {
    if decks == [] then {} else AllOf(decks[..|decks| - 1]) + Elements(decks[|decks| - 1])
  }

  lemma {:induction false} InAllOf(decks: seq<seq<CanvasRun>>, r: CanvasRun)
    ensures r in AllOf(decks) <==> exists c :: 0 <= c < |decks| && r in decks[c]
  {
    if decks != [] {
      var n := |decks| - 1;
      InAllOf(decks[..n], r);
      if c :| 0 <= c < n && r in decks[..n][c] { assert r in decks[c]; }
      if c :| 0 <= c < |decks| && r in decks[c] {
        if c < n { assert r in decks[..n][c]; }
      }
    }
  }

  lemma AllOfStep(decks: seq<seq<CanvasRun>>, deck: seq<CanvasRun>)
    ensures AllOf(decks + [deck]) == AllOf(decks) + Elements(deck)
  {
    assert (decks + [deck])[..|decks|] == decks;
  }

  /** What the loop over the decks has gathered. */
  datatype Gathered = Gathered(nodes: seq<Node>, edges: seq<Edge>, groupWeight: map<string, nat>, planWeight: map<string, nat>,
                               pairs: map<string, Pair>, grounds: map<string, nat>)

  ghost predicate Holding(g: Gathered, decks: seq<seq<CanvasRun>>, plans: set<string>) {
    && |g.nodes| == |decks| && (forall c :: 0 <= c < |decks| ==> g.nodes[c] == DeckNode(decks[c]))
    && (forall e :: e in g.edges <==> Pushed(decks, plans, e))
    && (forall k :: Got(g.groupWeight, k) == WeightOf(decks, Grouped(), k))
    && (forall k :: Got(g.planWeight, k) == WeightOf(decks, Planned(plans), k))
    && PairsBooked(g.pairs, AllOf(decks)) && GroundsBooked(g.grounds, AllOf(decks))
  }

  lemma HoldingNothing(plans: set<string>)
    ensures Holding(Gathered([], [], map[], map[], map[], map[]), [], plans)
  {}

  /** What one deck adds. */
  method AddDeck(g: Gathered, deck: seq<CanvasRun>, plans: set<string>, ghost decks: seq<seq<CanvasRun>>) returns (after: Gathered)
    requires Holding(g, decks, plans)
    ensures Holding(after, decks + [deck], plans)
  {
    hide *;
    HoldingParts(g, decks, plans);
    var node := DeckNode(deck);
    var edges := DeckEdges(node.id, deck, plans);
    var groups := SortedKeys(GroupsOf(deck));
    var named := SortedKeys(PlansOf(deck, plans));
    ListedAscend(groups, GroupsOf(deck));
    ListedAscend(named, PlansOf(deck, plans));
    var groupWeight := AddWeight(g.groupWeight, groups, |deck|);
    var planWeight := AddWeight(g.planWeight, named, |deck|);
    var pairs, grounds := Book(g.pairs, g.grounds, deck, AllOf(decks));
    AllOfStep(decks, deck);
    after := Gathered(g.nodes + [node], g.edges + edges, groupWeight, planWeight, pairs, grounds);
    NodesStep(g.nodes, decks, deck);
    EdgesStep(g.edges, edges, decks, deck, plans);
    forall k ensures Got(groupWeight, k) == WeightOf(decks + [deck], Grouped(), k) {
      GroupedIs(deck);
      WeightStep(decks, deck, Grouped(), k);
    }
    forall k ensures Got(planWeight, k) == WeightOf(decks + [deck], Planned(plans), k) {
      PlannedIs(deck, plans);
      WeightStep(decks, deck, Planned(plans), k);
    }
    HoldingIf(after, decks + [deck], plans);
  }

  lemma HoldingParts(g: Gathered, decks: seq<seq<CanvasRun>>, plans: set<string>)
    requires Holding(g, decks, plans)
    ensures |g.nodes| == |decks| && (forall c :: 0 <= c < |decks| ==> g.nodes[c] == DeckNode(decks[c]))
    ensures forall e :: e in g.edges <==> Pushed(decks, plans, e)
    ensures forall k :: Got(g.groupWeight, k) == WeightOf(decks, Grouped(), k)
    ensures forall k :: Got(g.planWeight, k) == WeightOf(decks, Planned(plans), k)
    ensures PairsBooked(g.pairs, AllOf(decks)) && GroundsBooked(g.grounds, AllOf(decks))
  {
    hide DeckNode, Pushed, Got, WeightOf, Grouped, Planned, PairsBooked, GroundsBooked, AllOf;
  }

  lemma HoldingIf(g: Gathered, decks: seq<seq<CanvasRun>>, plans: set<string>)
    requires |g.nodes| == |decks| && (forall c :: 0 <= c < |decks| ==> g.nodes[c] == DeckNode(decks[c]))
    requires forall e :: e in g.edges <==> Pushed(decks, plans, e)
    requires forall k :: Got(g.groupWeight, k) == WeightOf(decks, Grouped(), k)
    requires forall k :: Got(g.planWeight, k) == WeightOf(decks, Planned(plans), k)
    requires PairsBooked(g.pairs, AllOf(decks)) && GroundsBooked(g.grounds, AllOf(decks))
    ensures Holding(g, decks, plans)
  {
    hide DeckNode, Pushed, Got, WeightOf, Grouped, Planned, PairsBooked, GroundsBooked, AllOf;
  }

  lemma ListedAscend(keys: seq<string>, s: set<string>)
    requires Lists(keys, s)
    ensures Ascending(keys) && forall k :: k in keys <==> k in s
  {}

  lemma GroupedIs(deck: seq<CanvasRun>)
    ensures Grouped()(deck) == GroupsOf(deck)
  {}

  lemma PlannedIs(deck: seq<CanvasRun>, plans: set<string>)
    ensures Planned(plans)(deck) == PlansOf(deck, plans)
  {}

  lemma NodesStep(nodes: seq<Node>, decks: seq<seq<CanvasRun>>, deck: seq<CanvasRun>)
    requires |nodes| == |decks| && forall c :: 0 <= c < |decks| ==> nodes[c] == DeckNode(decks[c])
    ensures |nodes + [DeckNode(deck)]| == |decks + [deck]|
    ensures forall c :: 0 <= c < |decks + [deck]| ==> (nodes + [DeckNode(deck)])[c] == DeckNode((decks + [deck])[c])
  {
    hide DeckNode;
  }

  lemma EdgesStep(edges: seq<Edge>, more: seq<Edge>, decks: seq<seq<CanvasRun>>, deck: seq<CanvasRun>, plans: set<string>)
    requires forall e :: e in edges <==> Pushed(decks, plans, e)
    requires forall e :: e in more <==> exists r :: r in deck && RunEdge(DeckNode(deck).id, Kind(Several(GroupsOf(deck))), plans, r, e)
    ensures forall e :: e in edges + more <==> Pushed(decks + [deck], plans, e)
  {
    hide Pushed, RunEdge, GroupsOf, Several;
    forall e ensures e in edges + more <==> Pushed(decks + [deck], plans, e) {
      PushedStep(decks, deck, plans, e);
      assert PushedBy(deck, plans, e) <==> e in more;
    }
  }
}
