/** The execution graph: one node a deck, and edges only between nodes that are placed. */
module CanvasGraph {
  import opened Text
  import opened Sorting
  import opened Order
  import opened Chains
  import opened SessionStacks
  import opened DeckOrder
  import opened StableJson

  datatype NodeKind = RunNode | SessionNode | PlanNode | PairNode | GroundNode
  datatype Node = Node(id: string, kind: NodeKind, weight: nat)
  datatype EdgeKind = Continuation | Membership | PlanEdge | ReplayEdge
  datatype Edge = Edge(from: string, to: string, kind: EdgeKind)
  datatype Graph = Graph(nodes: seq<Node>, edges: seq<Edge>, unplaced: seq<Node>)

  // ----- node ids

  function RunNodeId(ids: seq<string>): string {
    var sorted := Sort(ids, AtMost);
    "run:" + if sorted == [] then "" else sorted[0]
  }

  function SessionNodeId(group: string): string { "session:" + group }
  function PlanNodeId(plan: string): string { "plan:" + plan }
  function GroundNodeId(project: string): string { "proving-ground:" + project }

  function Decimal(n: nat): (s: string)
    ensures IsNumberText(s)
  {
    if n < 10 then [n as char + '0'] else Decimal(n / 10) + [(n % 10) as char + '0']
  }

  function PairKey(project: string, item: string, repetition: nat): Value {
    List([Str(project), Str(item), Number(Decimal(repetition))])
  }

  function PairNodeId(project: string, item: string, repetition: nat): string {
    "pair:" + Stable(PairKey(project, item, repetition))
  }

  lemma {:induction false} DecimalReads(n: nat)
    ensures NumberOf(Decimal(n)) == n
  {
    if n < 10 {
      assert Decimal(n)[..0] == "";
    } else {
      DecimalReads(n / 10);
      assert Decimal(n)[..|Decimal(n)| - 1] == Decimal(n / 10);
    }
  }

  /** Different pairs never share a node id, whatever characters their names hold. */
  lemma PairIdReads(p: string, i: string, n: nat, q: string, j: string, m: nat)
    requires PairNodeId(p, i, n) == PairNodeId(q, j, m)
    ensures p == q && i == j && n == m
  {
    hide Stable, Same, Valid, Decimal;
    var a, b := PairKey(p, i, n), PairKey(q, j, m);
    After("pair:", Stable(a), Stable(b));
    PairKeyIsValid(p, i, n);
    PairKeyIsValid(q, j, m);
    StableIffSame(a, b);
    PairKeySame(p, i, n, q, j, m);
    DecimalReads(n);
    DecimalReads(m);
  }

  lemma After(start: string, x: string, y: string)
    requires start + x == start + y
    ensures x == y
  {
    assert (start + x)[|start|..] == x && (start + y)[|start|..] == y;
  }

  lemma PairKeyIsValid(p: string, i: string, n: nat)
    ensures Valid(PairKey(p, i, n))
  {}

  lemma PairKeySame(p: string, i: string, n: nat, q: string, j: string, m: nat)
    requires Same(PairKey(p, i, n), PairKey(q, j, m))
    ensures p == q && i == j && Decimal(n) == Decimal(m)
  {
    hide Decimal;
    var a, b := PairKey(p, i, n), PairKey(q, j, m);
    assert Same(a.items[0], b.items[0]) && Same(a.items[1], b.items[1]) && Same(a.items[2], b.items[2]);
  }

  function PairOf(r: CanvasRun): string
    requires r.replay.Some?
  {
    PairNodeId(r.run.project, r.replay.value.itemId, r.replay.value.repetition)
  }

  // ----- the graph of a list of runs, whatever their order

  function Base(runs: seq<CanvasRun>): (b: seq<Run>)
    ensures |b| == |runs| && forall i :: 0 <= i < |b| ==> b[i] == runs[i].run
  {
    seq(|runs|, i requires 0 <= i < |runs| => runs[i].run)
  }

  /** Positions of the deck that position i belongs to. */
  ghost predicate InDeck(runs: seq<CanvasRun>, i: int, j: int) {
    0 <= j < |runs| && Together(Base(runs), i, j)
  }

  ghost function DeckIds(runs: seq<CanvasRun>, i: int): set<string> {
    set j | 0 <= j < |runs| && InDeck(runs, i, j) :: runs[j].run.sessionId
  }

  lemma DeckHoldsItself(runs: seq<CanvasRun>, i: int)
    requires 0 <= i < |runs|
    ensures InDeck(runs, i, i) && runs[i].run.sessionId in DeckIds(runs, i)
  {
    TogetherSelf(Base(runs), i);
  }

  ghost function RunIdAt(runs: seq<CanvasRun>, i: int): string
    requires 0 <= i < |runs|
  {
    DeckHoldsItself(runs, i);
    "run:" + Least(DeckIds(runs, i))
  }

  /** The deck names two sessions: it is the connection between them. */
  ghost predicate Connects(runs: seq<CanvasRun>, i: int) {
    exists j, k :: InDeck(runs, i, j) && InDeck(runs, i, k)
                   && runs[j].run.groupId.Some? && runs[k].run.groupId.Some? && runs[j].run.groupId != runs[k].run.groupId
  }

  ghost predicate RunEdge(id: string, kind: EdgeKind, plans: set<string>, r: CanvasRun, e: Edge) {
    || (r.replay.Some? && e == Edge(id, PairOf(r), ReplayEdge))
    || (r.run.groupId.Some? && e == Edge(id, SessionNodeId(r.run.groupId.value), kind))
    || (r.planRef.Some? && r.planRef.value in plans && e == Edge(id, PlanNodeId(r.planRef.value), PlanEdge))
  }

  ghost predicate GroundEdge(r: CanvasRun, e: Edge) {
    r.replay.Some? && e == Edge(PairOf(r), GroundNodeId(r.run.project), ReplayEdge)
  }

  ghost predicate DeckEdge(runs: seq<CanvasRun>, plans: set<string>, i: int, e: Edge) {
    0 <= i < |runs| && RunEdge(RunIdAt(runs, i), if Connects(runs, i) then Continuation else Membership, plans, runs[i], e)
  }

  /** The edges of the graph. */
  ghost predicate IsEdge(runs: seq<CanvasRun>, plans: set<string>, e: Edge) {
    || (exists i :: DeckEdge(runs, plans, i, e))
    || exists r :: r in runs && GroundEdge(r, e)
  }

  /** The nodes that run r places besides its deck. */
  ghost predicate RunPlaces(plans: set<string>, r: CanvasRun, id: string) {
    || (r.run.groupId.Some? && id == SessionNodeId(r.run.groupId.value))
    || (r.planRef.Some? && r.planRef.value in plans && id == PlanNodeId(r.planRef.value))
    || (r.replay.Some? && (id == PairOf(r) || id == GroundNodeId(r.run.project)))
  }

  /** The ids of the nodes on the map. */
  ghost predicate IsPlaced(runs: seq<CanvasRun>, plans: set<string>, id: string) {
    || (exists i :: 0 <= i < |runs| && id == RunIdAt(runs, i))
    || exists r :: r in runs && RunPlaces(plans, r, id)
  }

  /** No edge dangles: both of its ends are on the map. */
  lemma EdgesJoinPlacedNodes(runs: seq<CanvasRun>, plans: set<string>, e: Edge)
    requires IsEdge(runs, plans, e)
    ensures IsPlaced(runs, plans, e.from) && IsPlaced(runs, plans, e.to)
  {
    hide PairOf, RunIdAt, Connects;
    if i :| DeckEdge(runs, plans, i, e) {
      assert e.from == RunIdAt(runs, i);
      assert runs[i] in runs && RunPlaces(plans, runs[i], e.to);
    } else {
      var r :| r in runs && GroundEdge(r, e);
      assert RunPlaces(plans, r, e.from) && RunPlaces(plans, r, e.to);
    }
  }

  // ----- the order the runs arrive in does not matter

  /** again lists the same runs, position k holding what stood at f[k]; g is the way back. */
  ghost predicate Reorders(runs: seq<CanvasRun>, again: seq<CanvasRun>, f: seq<nat>, g: seq<nat>) {
    && |f| == |g| == |runs| == |again|
    && (forall k :: 0 <= k < |f| ==> f[k] < |f| && again[k] == runs[f[k]] && g[f[k]] == k)
    && (forall k :: 0 <= k < |g| ==> g[k] < |g| && f[g[k]] == k)
  }

  lemma ReordersBack(runs: seq<CanvasRun>, again: seq<CanvasRun>, f: seq<nat>, g: seq<nat>)
    requires Reorders(runs, again, f, g)
    ensures Reorders(again, runs, g, f)
  {
    forall k | 0 <= k < |g| ensures runs[k] == again[g[k]] { assert again[g[k]] == runs[f[g[k]]]; }
  }

  lemma {:induction false} ChainMoves(runs: seq<CanvasRun>, again: seq<CanvasRun>, f: seq<nat>, g: seq<nat>, p: seq<int>)
    requires Reorders(runs, again, f, g) && p != [] && 0 <= p[0] < |f| && Chain<int>(RelatedAt(Base(again)), p)
    ensures 0 <= p[|p| - 1] < |f| && Together(Base(runs), f[p[0]], f[p[|p| - 1]])
    decreases |p|
  {
    if |p| == 1 {
      TogetherSelf(Base(runs), f[p[0]]);
    } else {
      var i, j := p[0], p[1];
      assert RelatedAt(Base(again))(p[0], p[1]);
      ChainTail(again, p);
      ChainMoves(runs, again, f, g, p[1..]);
      assert f[i] != f[j] by { assert g[f[i]] == i && g[f[j]] == j; }
      assert RelatedAt(Base(runs))(f[i], f[j]);
      LinkedStep<int>(RelatedAt(Base(runs)), f[i], f[j]);
      TogetherThrough(Base(runs), f[i], f[j], f[p[|p| - 1]]);
    }
  }

  lemma ChainTail(again: seq<CanvasRun>, p: seq<int>)
    requires |p| > 1 && Chain<int>(RelatedAt(Base(again)), p)
    ensures Chain<int>(RelatedAt(Base(again)), p[1..])
  {
    forall k | 0 <= k < |p[1..]| - 1 ensures RelatedAt(Base(again))(p[1..][k], p[1..][k + 1]) {
      assert RelatedAt(Base(again))(p[k + 1], p[k + 2]);
    }
  }

  lemma TogetherMoves(runs: seq<CanvasRun>, again: seq<CanvasRun>, f: seq<nat>, g: seq<nat>, i: int, j: int)
    requires Reorders(runs, again, f, g) && 0 <= i < |f| && 0 <= j < |f|
    ensures InDeck(again, i, j) <==> InDeck(runs, f[i], f[j])
  {
    hide Chain, RelatedAt, Base;
    if InDeck(again, i, j) {
      var p: seq<int> :| Joins<int>(RelatedAt(Base(again)), p, i, j);
      ChainMoves(runs, again, f, g, p);
    }
    if InDeck(runs, f[i], f[j]) {
      ReordersBack(runs, again, f, g);
      var p: seq<int> :| Joins<int>(RelatedAt(Base(runs)), p, f[i] as int, f[j] as int);
      ChainMoves(again, runs, g, f, p);
    }
  }

  lemma IdsMove(runs: seq<CanvasRun>, again: seq<CanvasRun>, f: seq<nat>, g: seq<nat>, i: int)
    requires Reorders(runs, again, f, g) && 0 <= i < |f|
    ensures forall id :: id in DeckIds(again, i) ==> id in DeckIds(runs, f[i])
  {
    hide InDeck;
    forall id | id in DeckIds(again, i) ensures id in DeckIds(runs, f[i]) {
      var j :| 0 <= j < |again| && InDeck(again, i, j) && id == again[j].run.sessionId;
      TogetherMoves(runs, again, f, g, i, j);
      assert runs[f[j]].run.sessionId == id;
    }
  }

  lemma ConnectsMoves(runs: seq<CanvasRun>, again: seq<CanvasRun>, f: seq<nat>, g: seq<nat>, i: int)
    requires Reorders(runs, again, f, g) && 0 <= i < |f| && Connects(again, i)
    ensures Connects(runs, f[i])
  {
    hide Together;
    var j, k :| InDeck(again, i, j) && InDeck(again, i, k)
      && again[j].run.groupId.Some? && again[k].run.groupId.Some? && again[j].run.groupId != again[k].run.groupId;
    TogetherMoves(runs, again, f, g, i, j);
    TogetherMoves(runs, again, f, g, i, k);
    assert InDeck(runs, f[i], f[j]) && InDeck(runs, f[i], f[k]);
  }

  lemma DecksMove(runs: seq<CanvasRun>, again: seq<CanvasRun>, f: seq<nat>, g: seq<nat>, i: int)
    requires Reorders(runs, again, f, g) && 0 <= i < |f|
    ensures RunIdAt(again, i) == RunIdAt(runs, f[i]) && (Connects(again, i) <==> Connects(runs, f[i]))
  {
    hide DeckIds, Connects, Least;
    ReordersBack(runs, again, f, g);
    IdsMove(runs, again, f, g, i);
    IdsMove(again, runs, g, f, f[i]);
    assert g[f[i]] == i;
    if Connects(again, i) { ConnectsMoves(runs, again, f, g, i); }
    if Connects(runs, f[i]) { ConnectsMoves(again, runs, g, f, f[i]); }
    assert DeckIds(again, i) == DeckIds(runs, f[i]);
  }

  lemma EdgeMoves(runs: seq<CanvasRun>, again: seq<CanvasRun>, f: seq<nat>, g: seq<nat>, plans: set<string>, e: Edge)
    requires Reorders(runs, again, f, g) && IsEdge(again, plans, e)
    ensures IsEdge(runs, plans, e)
  {
    hide RunEdge, GroundEdge, RunIdAt, Connects;
    if i :| DeckEdge(again, plans, i, e) {
      DecksMove(runs, again, f, g, i);
      assert DeckEdge(runs, plans, f[i], e);
    } else {
      var r :| r in again && GroundEdge(r, e);
      var k :| 0 <= k < |again| && again[k] == r;
      assert runs[f[k]] == r;
    }
  }

  lemma PlaceMoves(runs: seq<CanvasRun>, again: seq<CanvasRun>, f: seq<nat>, g: seq<nat>, plans: set<string>, id: string)
    requires Reorders(runs, again, f, g) && IsPlaced(again, plans, id)
    ensures IsPlaced(runs, plans, id)
  {
    hide RunPlaces, RunIdAt;
    if i :| 0 <= i < |again| && id == RunIdAt(again, i) {
      DecksMove(runs, again, f, g, i);
      assert id == RunIdAt(runs, f[i]);
    } else {
      var r :| r in again && RunPlaces(plans, r, id);
      var k :| 0 <= k < |again| && again[k] == r;
      assert runs[f[k]] == r;
    }
  }

  /** Node ids and edges do not depend on the order the runs arrive in. */
  lemma ArrivalOrderDoesNotShow(runs: seq<CanvasRun>, again: seq<CanvasRun>, f: seq<nat>, g: seq<nat>, plans: set<string>, id: string, e: Edge)
    requires Reorders(runs, again, f, g)
    ensures IsPlaced(runs, plans, id) <==> IsPlaced(again, plans, id)
    ensures IsEdge(runs, plans, e) <==> IsEdge(again, plans, e)
  {
    hide *;
    ReordersBack(runs, again, f, g);
    if IsPlaced(again, plans, id) { PlaceMoves(runs, again, f, g, plans, id); }
    if IsPlaced(runs, plans, id) { PlaceMoves(again, runs, g, f, plans, id); }
    if IsEdge(again, plans, e) { EdgeMoves(runs, again, f, g, plans, e); }
    if IsEdge(runs, plans, e) { EdgeMoves(again, runs, g, f, plans, e); }
  }
}
