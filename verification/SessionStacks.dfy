/** Decks of runs: the connected components of the recorded relationships, found by union-find. */
module SessionStacks {
  import opened Text
  import opened Chains

  datatype Run = Run(sessionId: string, project: string, taskId: string, continuesTask: Option<string>, attempt: int, groupId: Option<string>)

  predicate Related(left: Run, right: Run) {
    && left.project == right.project
    && ((left.taskId == right.taskId && left.attempt != right.attempt)
        || left.continuesTask == Some(right.taskId) || right.continuesTask == Some(left.taskId))
  }

  /** The same relation on positions in a list of runs. */
  function RelatedAt(runs: seq<Run>): (int, int) -> bool {
    (i: int, j: int) => 0 <= i < |runs| && 0 <= j < |runs| && i != j && Related(runs[i], runs[j])
  }

  /** Some chain of related runs joins these two positions. */
  ghost predicate Together(runs: seq<Run>, i: int, j: int) {
    Linked<int>(RelatedAt(runs), i, j)
  }

  lemma TogetherSelf(runs: seq<Run>, i: int)
    ensures Together(runs, i, i)
  {
    LinkedSelf<int>(RelatedAt(runs), i);
  }

  lemma TogetherBack(runs: seq<Run>, i: int, j: int)
    requires Together(runs, i, j)
    ensures Together(runs, j, i)
  {
    LinkedBack<int>(RelatedAt(runs), i, j);
  }

  lemma TogetherThrough(runs: seq<Run>, i: int, j: int, k: int)
    requires Together(runs, i, j) && Together(runs, j, k)
    ensures Together(runs, i, k)
  {
    LinkedThrough<int>(RelatedAt(runs), i, j, k);
  }

  // ----- a forest of parent indices

  /** Every parent is nearer a root than its child. */
  ghost predicate Forest(p: seq<nat>, depth: seq<nat>) {
    |depth| == |p| && forall i :: 0 <= i < |p| ==> p[i] < |p| && (p[i] != i ==> depth[p[i]] < depth[i])
  }

  ghost function Root(p: seq<nat>, depth: seq<nat>, i: nat): (r: nat)
    requires Forest(p, depth) && i < |p|
    ensures r < |p| && p[r] == r && depth[r] <= depth[i] && (p[i] == i <==> r == i)
    decreases depth[i]
  {
    if p[i] == i then i else Root(p, depth, p[i])
  }

  ghost function Roots(p: seq<nat>, depth: seq<nat>): (r: seq<nat>)
    requires Forest(p, depth)
    ensures |r| == |p| && forall i :: 0 <= i < |p| ==> r[i] == Root(p, depth, i)
  {
    seq(|p|, i requires 0 <= i < |p| => Root(p, depth, i))
  }

  lemma {:induction false} CompressedRoot(p: seq<nat>, depth: seq<nat>, k: nat, i: nat)
    requires Forest(p, depth) && k < |p| && i < |p| && p[k] != k
    ensures Forest(p[k := Root(p, depth, k)], depth)
    ensures Root(p[k := Root(p, depth, k)], depth, i) == Root(p, depth, i)
    decreases depth[i]
  {
    var r := Root(p, depth, k);
    assert depth[r] < depth[k];
    if i == k {
      assert Root(p[k := r], depth, r) == r;
    } else if p[i] != i {
      CompressedRoot(p, depth, k, p[i]);
    }
  }

  /** Pointing a node at its root changes no root. */
  lemma Compressed(p: seq<nat>, depth: seq<nat>, k: nat)
    requires Forest(p, depth) && k < |p| && p[k] != k
    ensures var q := p[k := Root(p, depth, k)];
      Forest(q, depth) && forall i :: 0 <= i < |p| ==> Root(q, depth, i) == Root(p, depth, i)
  {
    CompressedRoot(p, depth, k, k);
    forall i | 0 <= i < |p| ensures Root(p[k := Root(p, depth, k)], depth, i) == Root(p, depth, i) {
      CompressedRoot(p, depth, k, i);
    }
  }

  ghost predicate SameRoots(p: seq<nat>, q: seq<nat>, depth: seq<nat>) {
    && Forest(p, depth) && Forest(q, depth) && |q| == |p|
    && forall i :: 0 <= i < |p| ==> Root(q, depth, i) == Root(p, depth, i)
  }

  /** find: walk to the root, then point everything on the way straight at it. */
  method Find(parents: array<nat>, ghost depth: seq<nat>, index: nat) returns (root: nat)
    requires Forest(parents[..], depth) && index < parents.Length
    modifies parents
    ensures SameRoots(old(parents[..]), parents[..], depth)
    ensures root == Root(parents[..], depth, index)
  {
    ghost var was := parents[..];
    root := index;
    while parents[root] != root
      invariant root < parents.Length && parents[..] == was && Root(was, depth, root) == Root(was, depth, index)
      decreases depth[root]
    {
      root := parents[root];
    }
    var at: nat := index;
    while parents[at] != at
      invariant at < parents.Length && SameRoots(was, parents[..], depth)
      invariant root == Root(was, depth, index) == Root(was, depth, at)
      decreases depth[at]
    {
      var next := parents[at];
      Compressed(parents[..], depth, at);
      parents[at] := root;
      at := next;
    }
  }

  // ----- joining two trees

  /** Hanging the second root under the first: its whole tree sinks below the first root. */
  ghost function Sunk(p: seq<nat>, depth: seq<nat>, left: nat, right: nat): (d: seq<nat>)
    requires Forest(p, depth) && left < |p| && right < |p|
    ensures |d| == |p| && forall i :: 0 <= i < |p| ==> d[i] == depth[i] + if Root(p, depth, i) == right then depth[left] + 1 else 0
  {
    seq(|p|, i requires 0 <= i < |p| => depth[i] + if Root(p, depth, i) == right then depth[left] + 1 else 0)
  }

  lemma JoinedForest(p: seq<nat>, depth: seq<nat>, left: nat, right: nat)
    requires Forest(p, depth) && left < |p| && right < |p| && left != right && p[left] == left && p[right] == right
    ensures Forest(p[right := left], Sunk(p, depth, left, right))
  {
    var d, q := Sunk(p, depth, left, right), p[right := left];
    forall i | 0 <= i < |q| ensures q[i] < |q| && (q[i] != i ==> d[q[i]] < d[i]) {
      if i != right && p[i] != i { assert Root(p, depth, p[i]) == Root(p, depth, i); }
    }
  }

  lemma {:induction false} JoinedRoot(p: seq<nat>, depth: seq<nat>, left: nat, right: nat, i: nat)
    requires Forest(p, depth) && left < |p| && right < |p| && left != right && p[left] == left && p[right] == right && i < |p|
    requires Forest(p[right := left], Sunk(p, depth, left, right))
    ensures Root(p[right := left], Sunk(p, depth, left, right), i)
            == if Root(p, depth, i) == right then left else Root(p, depth, i)
    decreases depth[i]
  {
    var d, q := Sunk(p, depth, left, right), p[right := left];
    if i == right {
      assert Root(q, d, left) == left;
    } else if p[i] != i {
      JoinedRoot(p, depth, left, right, p[i]);
    }
  }

  /** Each run reaches its root through related runs, and the pairs seen so far share one. */
  ghost predicate Sound(runs: seq<Run>, p: seq<nat>, depth: seq<nat>) {
    |p| == |runs| && Forest(p, depth) && forall i :: 0 <= i < |p| ==> Together(runs, i, Root(p, depth, i))
  }

  ghost predicate Agreed(runs: seq<Run>, p: seq<nat>, depth: seq<nat>, i: nat, j: nat)
    requires Forest(p, depth)
  {
    i < |p| && j < |p| && (RelatedAt(runs)(i, j) ==> Root(p, depth, i) == Root(p, depth, j))
  }

  /** Pairs before (left, right) in the loops' order. */
  ghost predicate Seen(runs: seq<Run>, p: seq<nat>, depth: seq<nat>, left: nat, right: nat) {
    && Forest(p, depth) && |p| == |runs|
    && forall i, j {:trigger Agreed(runs, p, depth, i, j)} ::
         0 <= i < j < |p| && (i < left || (i == left && j < right)) ==> Agreed(runs, p, depth, i, j)
  }

  lemma SameRootsKeep(runs: seq<Run>, p: seq<nat>, q: seq<nat>, depth: seq<nat>, left: nat, right: nat)
    requires SameRoots(p, q, depth) && Sound(runs, p, depth) && Seen(runs, p, depth, left, right)
    ensures Sound(runs, q, depth) && Seen(runs, q, depth, left, right)
  {
    forall i, j | 0 <= i < j < |q| && (i < left || (i == left && j < right)) ensures Agreed(runs, q, depth, i, j) {
      assert Agreed(runs, p, depth, i, j);
    }
  }

  lemma JoinKeeps(runs: seq<Run>, p: seq<nat>, depth: seq<nat>, left: nat, right: nat, a: nat, b: nat)
    requires Sound(runs, p, depth) && Seen(runs, p, depth, left, right)
    requires a < |p| && b < |p| && Together(runs, a, b)
    requires Root(p, depth, a) != Root(p, depth, b)
    ensures var l, r := Root(p, depth, a), Root(p, depth, b); var q, d := p[r := l], Sunk(p, depth, l, r);
      Sound(runs, q, d) && Seen(runs, q, d, left, right) && Root(q, d, a) == Root(q, d, b)
  {
    var l, r := Root(p, depth, a), Root(p, depth, b);
    var q, d := p[r := l], Sunk(p, depth, l, r);
    JoinedForest(p, depth, l, r);
    RootsTogether(runs, p, depth, a, b);
    forall i | 0 <= i < |q| ensures Together(runs, i, Root(q, d, i))
      && Root(q, d, i) == if Root(p, depth, i) == r then l else Root(p, depth, i) {
      JoinedRoot(p, depth, l, r, i);
      if Root(p, depth, i) == r { TogetherThrough(runs, i, r, l); }
    }
    forall i, j | 0 <= i < j < |q| && (i < left || (i == left && j < right)) ensures Agreed(runs, q, d, i, j) {
      assert Agreed(runs, p, depth, i, j);
    }
  }

  lemma RootsTogether(runs: seq<Run>, p: seq<nat>, depth: seq<nat>, a: nat, b: nat)
    requires Sound(runs, p, depth) && a < |p| && b < |p| && Together(runs, a, b)
    ensures Together(runs, Root(p, depth, b), Root(p, depth, a))
  {
    TogetherBack(runs, a, b);
    TogetherBack(runs, b, Root(p, depth, b));
    TogetherThrough(runs, Root(p, depth, b), b, a);
    TogetherThrough(runs, Root(p, depth, b), a, Root(p, depth, a));
  }

  /** Once every pair is seen, sharing a root and being joined by a chain are the same. */
  lemma RootIffTogether(runs: seq<Run>, p: seq<nat>, depth: seq<nat>, i: nat, j: nat)
    requires Sound(runs, p, depth) && Seen(runs, p, depth, |runs|, 0) && i < |p| && j < |p|
    ensures Root(p, depth, i) == Root(p, depth, j) <==> Together(runs, i, j)
  {
    if Root(p, depth, i) == Root(p, depth, j) {
      TogetherBack(runs, j, Root(p, depth, j));
      TogetherThrough(runs, i, Root(p, depth, i), j);
    }
    if Together(runs, i, j) {
      var of := (k: int) => if 0 <= k < |p| then Root(p, depth, k) as int else k;
      forall x: int, y: int | RelatedAt(runs)(x, y) ensures of(x) == of(y) {
        if x < y { assert Agreed(runs, p, depth, x, y); } else { assert Agreed(runs, p, depth, y, x); }
      }
      Shared<int, int>(RelatedAt(runs), i, j, of);
    }
  }

  /** join, as the loops call it: afterwards the two positions share a root. */
  method Join(runs: seq<Run>, parents: array<nat>, ghost depth: seq<nat>, left: nat, right: nat) returns (ghost sunk: seq<nat>)
    requires Sound(runs, parents[..], depth) && Seen(runs, parents[..], depth, left, right)
    requires left < right < parents.Length && Together(runs, left, right)
    modifies parents
    ensures Sound(runs, parents[..], sunk) && Seen(runs, parents[..], sunk, left, right + 1)
  {
    ghost var before := parents[..];
    var leftRoot := Find(parents, depth, left);
    ghost var once := parents[..];
    SameRootsKeep(runs, before, once, depth, left, right);
    var rightRoot := Find(parents, depth, right);
    ghost var twice := parents[..];
    SameRootsKeep(runs, once, twice, depth, left, right);
    sunk := depth;
    if leftRoot != rightRoot {
      JoinKeeps(runs, twice, depth, left, right, left, right);
      parents[rightRoot] := leftRoot;
      sunk := Sunk(twice, depth, leftRoot, rightRoot);
      assert parents[..] == twice[rightRoot := leftRoot];
    }
    SeenNext(runs, parents[..], sunk, left, right);
  }

  lemma SeenNext(runs: seq<Run>, p: seq<nat>, depth: seq<nat>, left: nat, right: nat)
    requires Seen(runs, p, depth, left, right) && Agreed(runs, p, depth, left, right)
    ensures Seen(runs, p, depth, left, right + 1)
  {}

  /** The nested loops over every pair. */
  method JoinAll(runs: seq<Run>) returns (parents: array<nat>, ghost depth: seq<nat>)
    ensures fresh(parents) && Sound(runs, parents[..], depth) && Seen(runs, parents[..], depth, |runs|, 0)
  {
    parents := new nat[|runs|](i => i);
    depth := seq(|runs|, i => 0);
    Singletons(runs, parents[..], depth);
    for left := 0 to |runs|
      invariant fresh(parents) && Sound(runs, parents[..], depth) && Seen(runs, parents[..], depth, left, 0)
    {
      for right := left + 1 to |runs|
        invariant fresh(parents) && Sound(runs, parents[..], depth) && Seen(runs, parents[..], depth, left, right)
      {
        if Related(runs[left], runs[right]) {
          LinkedStep<int>(RelatedAt(runs), left, right);
          depth := Join(runs, parents, depth, left, right);
        } else {
          SeenNext(runs, parents[..], depth, left, right);
        }
      }
      RowSeen(runs, parents[..], depth, left);
    }
  }

  lemma Singletons(runs: seq<Run>, p: seq<nat>, depth: seq<nat>)
    requires |p| == |depth| == |runs| && forall i :: 0 <= i < |p| ==> p[i] == i
    ensures Sound(runs, p, depth) && Seen(runs, p, depth, 0, 0)
  {
    forall i | 0 <= i < |p| ensures Together(runs, i, Root(p, depth, i)) { TogetherSelf(runs, i); }
  }

  lemma RowSeen(runs: seq<Run>, p: seq<nat>, depth: seq<nat>, left: nat)
    requires left < |runs| && Seen(runs, p, depth, left, |runs|)
    ensures Seen(runs, p, depth, left + 1, 0)
  {}

  // ----- decks

  /** One deck: positions below n, rising. */
  ghost predicate Rising(deck: seq<nat>, n: nat) {
    && deck != [] && (forall k :: 0 <= k < |deck| ==> deck[k] < n)
    && (forall k, m :: 0 <= k < m < |deck| ==> deck[k] < deck[m])
  }

  ghost predicate Holds(decks: seq<seq<nat>>, d: nat, i: nat) {
    d < |decks| && i in decks[d]
  }

  ghost predicate Placed(decks: seq<seq<nat>>, i: nat) {
    exists d: nat :: Holds(decks, d, i)
  }

  /** Decks list every position below n, rising inside a deck and decks ordered by their first. */
  ghost predicate Decks(n: nat, decks: seq<seq<nat>>) {
    && (forall d {:trigger decks[d]} :: 0 <= d < |decks| ==> Rising(decks[d], n))
    && (forall d, e :: 0 <= d < e < |decks| ==> decks[d][0] < decks[e][0])
    && (forall i :: 0 <= i < n ==> Placed(decks, i))
  }

  /** Two positions share a deck exactly when a chain of related runs joins them. */
  ghost predicate Components(runs: seq<Run>, decks: seq<seq<nat>>) {
    && Decks(|runs|, decks)
    && forall d: nat, e: nat, i: nat, j: nat :: Holds(decks, d, i) && Holds(decks, e, j) ==> (d == e <==> Together(runs, i, j))
  }

  ghost predicate Keyed(root: seq<nat>, key: nat, deck: seq<nat>) {
    forall i :: i in deck ==> i < |root| && root[i] == key
  }

  /** A Map from roots to decks, in insertion order, filled up to position i. */
  ghost predicate Filled(root: seq<nat>, i: nat, keys: seq<nat>, decks: seq<seq<nat>>) {
    && |keys| == |decks| && i <= |root| && Decks(i, decks)
    && (forall d, e :: 0 <= d < e < |keys| ==> keys[d] != keys[e])
    && (forall d {:trigger decks[d]} :: 0 <= d < |decks| ==> Keyed(root, keys[d], decks[d]))
  }

  function KeyIndex(keys: seq<nat>, key: nat): (d: nat)
    ensures d <= |keys| && (d < |keys| ==> keys[d] == key) && forall e :: 0 <= e < d ==> keys[e] != key
  {
    if keys == [] || keys[0] == key then 0 else 1 + KeyIndex(keys[1..], key)
  }

  lemma RisingLonger(deck: seq<nat>, i: nat)
    requires Rising(deck, i)
    ensures Rising(deck + [i], i + 1) && (deck + [i])[0] == deck[0]
  {}

  lemma StillPlaced(decks: seq<seq<nat>>, after: seq<seq<nat>>, n: nat)
    requires forall i :: 0 <= i < n ==> Placed(decks, i)
    requires |decks| <= |after| && forall d :: 0 <= d < |decks| ==> decks[d] <= after[d]
    ensures forall i :: 0 <= i < n ==> Placed(after, i)
  {
    forall i | 0 <= i < n ensures Placed(after, i) {
      assert Placed(decks, i);
      var d: nat :| Holds(decks, d, i);
      var k :| 0 <= k < |decks[d]| && decks[d][k] == i;
      assert after[d][k] == i;
      assert Holds(after, d, i);
    }
  }

  lemma FilledOld(root: seq<nat>, i: nat, keys: seq<nat>, decks: seq<seq<nat>>, d: nat)
    requires Filled(root, i, keys, decks) && i < |root| && d < |keys| && keys[d] == root[i]
    ensures Filled(root, i + 1, keys, decks[d := decks[d] + [i]])
  {
    var after := decks[d := decks[d] + [i]];
    assert Keyed(root, keys[d], decks[d]);
    RisingLonger(decks[d], i);
    forall e | 0 <= e < |after| ensures Rising(after[e], i + 1) && Keyed(root, keys[e], after[e]) && after[e][0] == decks[e][0] {
      assert Rising(decks[e], i) && Keyed(root, keys[e], decks[e]);
    }
    StillPlaced(decks, after, i);
    assert Holds(after, d, i);
    assert Placed(after, i);
  }

  lemma FilledNew(root: seq<nat>, i: nat, keys: seq<nat>, decks: seq<seq<nat>>)
    requires Filled(root, i, keys, decks) && i < |root| && forall d :: 0 <= d < |keys| ==> keys[d] != root[i]
    ensures Filled(root, i + 1, keys + [root[i]], decks + [[i]])
  {
    var after, names := decks + [[i]], keys + [root[i]];
    forall e | 0 <= e < |after| ensures Rising(after[e], i + 1) && Keyed(root, names[e], after[e])
      && (e < |decks| ==> after[e][0] < i && after[e] == decks[e]) {
      if e < |decks| { assert Rising(decks[e], i) && Keyed(root, keys[e], decks[e]); }
    }
    StillPlaced(decks, after, i);
    assert Holds(after, |decks|, i);
    assert Placed(after, i);
  }

  lemma FilledIsComponents(runs: seq<Run>, p: seq<nat>, depth: seq<nat>, root: seq<nat>, keys: seq<nat>, decks: seq<seq<nat>>)
    requires Sound(runs, p, depth) && Seen(runs, p, depth, |runs|, 0) && |root| == |runs| && Filled(root, |runs|, keys, decks)
    requires forall i :: 0 <= i < |root| ==> root[i] == Root(p, depth, i)
    ensures Components(runs, decks)
  {
    forall d: nat, e: nat, i: nat, j: nat | Holds(decks, d, i) && Holds(decks, e, j) ensures d == e <==> Together(runs, i, j) {
      assert Keyed(root, keys[d], decks[d]) && Keyed(root, keys[e], decks[e]);
      RootIffTogether(runs, p, depth, i, j);
    }
  }

  /** One step of the grouping loop: append to the root's deck, or start one. */
  method Place(keys: seq<nat>, decks: seq<seq<nat>>, root: nat, index: nat, ghost roots: seq<nat>)
    returns (names: seq<nat>, after: seq<seq<nat>>)
    requires Filled(roots, index, keys, decks) && index < |roots| && root == roots[index]
    ensures Filled(roots, index + 1, names, after)
  {
    var d := KeyIndex(keys, root);
    if d < |keys| {
      FilledOld(roots, index, keys, decks, d);
      names, after := keys, decks[d := decks[d] + [index]];
    } else {
      FilledNew(roots, index, keys, decks);
      names, after := keys + [root], decks + [[index]];
    }
  }

  method GroupPositions(runs: seq<Run>) returns (decks: seq<seq<nat>>)
    ensures Components(runs, decks)
  {
    var parents, depth := JoinAll(runs);
    var keys: seq<nat> := [];
    decks := [];
    ghost var roots := Roots(parents[..], depth);
    for index := 0 to |runs|
      invariant Sound(runs, parents[..], depth) && Seen(runs, parents[..], depth, |runs|, 0)
      invariant forall i :: 0 <= i < |roots| ==> roots[i] == Root(parents[..], depth, i)
      invariant Filled(roots, index, keys, decks)
    {
      ghost var before := parents[..];
      var root := Find(parents, depth, index);
      SameRootsKeep(runs, before, parents[..], depth, |runs|, 0);
      keys, decks := Place(keys, decks, root, index, roots);
    }
    FilledIsComponents(runs, parents[..], depth, roots, keys, decks);
  }

  datatype Stack = Stack(key: string, sessions: seq<Run>)

  function Taken(runs: seq<Run>, deck: seq<nat>): (r: seq<Run>)
    requires forall k :: 0 <= k < |deck| ==> deck[k] < |runs|
    ensures |r| == |deck| && forall k :: 0 <= k < |r| ==> r[k] == runs[deck[k]]
  {
    seq(|deck|, k requires 0 <= k < |deck| => runs[deck[k]])
  }

  /** groupSessionStacks: one stack a component, keyed by its first run. */
  method GroupSessionStacks(runs: seq<Run>) returns (stacks: seq<Stack>, ghost decks: seq<seq<nat>>)
    ensures Components(runs, decks) && |stacks| == |decks|
    ensures forall d :: 0 <= d < |stacks| ==>
      stacks[d].sessions == Taken(runs, decks[d]) && stacks[d].key == runs[decks[d][0]].sessionId
  {
    var found := GroupPositions(runs);
    decks := found;
    stacks := [];
    for d := 0 to |found|
      invariant |stacks| == d
      invariant forall e :: 0 <= e < d ==> stacks[e].sessions == Taken(runs, decks[e]) && stacks[e].key == runs[decks[e][0]].sessionId
    {
      var members := Taken(runs, found[d]);
      stacks := stacks + [Stack(members[0].sessionId, members)];
    }
  }

  // ----- what one stack is, in the runs' own words

  /** Another attempt of the same task, or one continues the other's task; never across projects. */
  ghost predicate Kin(a: Run, b: Run) {
    && a.project == b.project
    && (a.taskId != b.taskId || a.attempt == b.attempt ==>
          (a.continuesTask.Some? && a.continuesTask.value == b.taskId) || (b.continuesTask.Some? && b.continuesTask.value == a.taskId))
  }

  /** A way from i to j over other positions of the list, each step from one run to its kin. */
  ghost predicate Way(runs: seq<Run>, p: seq<int>, i: int, j: int) {
    p != [] && p[0] == i && p[|p| - 1] == j && forall k :: 0 <= k < |p| - 1 ==> KinAt(runs, p[k], p[k + 1])
  }

  ghost predicate KinAt(runs: seq<Run>, a: int, b: int) {
    0 <= a < |runs| && 0 <= b < |runs| && a != b && Kin(runs[a], runs[b])
  }

  /** Two runs stand in one stack exactly when a way of kin leads from one to the other. */
  lemma OneStackIff(runs: seq<Run>, decks: seq<seq<nat>>, d: nat, i: nat, j: nat)
    requires Components(runs, decks) && Holds(decks, d, i) && j < |runs|
    ensures Holds(decks, d, j) <==> exists p :: Way(runs, p, i, j)
  {
    InItsDeck(runs, decks, d, i, j);
    forall a: int, b: int ensures RelatedAt(runs)(a, b) <==> KinAt(runs, a, b) {}
    if p :| Way(runs, p, i, j) { assert Joins<int>(RelatedAt(runs), p, i, j); }
    if Together(runs, i, j) { var p: seq<int> :| Joins<int>(RelatedAt(runs), p, i, j); assert Way(runs, p, i, j); }
  }

  // ----- the components, and so the stacks, are determined by the runs alone

  lemma {:induction false} SameRising(x: seq<nat>, y: seq<nat>)
    requires forall k, m :: 0 <= k < m < |x| ==> x[k] < x[m]
    requires forall k, m :: 0 <= k < m < |y| ==> y[k] < y[m]
    requires forall i :: i in x <==> i in y
    ensures x == y
    decreases |x|
  {
    assert y != [] ==> y[0] in x;
    if x == [] {
    } else {
      assert x[0] in y && y != [] && y[0] in x;
      var k :| 0 <= k < |y| && y[k] == x[0];
      var m :| 0 <= m < |x| && x[m] == y[0];
      assert x[0] == y[0];
      forall i | i in x[1..] ensures i in y[1..] { assert i in x; var q :| 0 <= q < |y| && y[q] == i; assert q > 0 && y[1..][q - 1] == i; }
      forall i | i in y[1..] ensures i in x[1..] { assert i in y; var q :| 0 <= q < |x| && x[q] == i; assert q > 0 && x[1..][q - 1] == i; }
      SameRising(x[1..], y[1..]);
      assert x == [x[0]] + x[1..] && y == [y[0]] + y[1..];
    }
  }

  lemma InItsDeck(runs: seq<Run>, decks: seq<seq<nat>>, d: nat, i: nat, j: nat)
    requires Components(runs, decks) && Holds(decks, d, i) && j < |runs|
    ensures Holds(decks, d, j) <==> Together(runs, i, j)
  {
    assert Placed(decks, j);
    var e: nat :| Holds(decks, e, j);
  }

  ghost predicate Agree(x: seq<seq<nat>>, y: seq<seq<nat>>, k: nat) {
    k <= |x| && k <= |y| && forall d :: 0 <= d < k ==> x[d] == y[d]
  }

  /** A position outside the decks they agree on is in a later deck, so no earlier than the next one's first. */
  lemma NextFirst(runs: seq<Run>, x: seq<seq<nat>>, y: seq<seq<nat>>, k: nat)
    requires Components(runs, x) && Components(runs, y) && k < |x| && k < |y| && Agree(x, y, k)
    ensures y[k][0] <= x[k][0]
  {
    var i := x[k][0];
    assert Rising(x[k], |runs|);
    assert Holds(x, k, i) && Placed(y, i);
    var e: nat :| Holds(y, e, i);
    TogetherSelf(runs, i);
    assert !Holds(x, e, i) || e == k;
    FirstIsLeast(y[e], |runs|, i);
  }

  lemma FirstIsLeast(deck: seq<nat>, n: nat, i: nat)
    requires Rising(deck, n) && i in deck
    ensures deck[0] <= i
  {
    var q :| 0 <= q < |deck| && deck[q] == i;
  }

  lemma NextDeck(runs: seq<Run>, x: seq<seq<nat>>, y: seq<seq<nat>>, k: nat)
    requires Components(runs, x) && Components(runs, y) && k < |x| && k < |y| && Agree(x, y, k)
    ensures x[k] == y[k]
  {
    NextFirst(runs, x, y, k);
    NextFirst(runs, y, x, k);
    var i := x[k][0];
    assert Rising(x[k], |runs|) && Rising(y[k], |runs|);
    assert Holds(x, k, i) && Holds(y, k, i);
    forall j: nat ensures j in x[k] <==> j in y[k] {
      if j < |runs| {
        InItsDeck(runs, x, k, i, j);
        InItsDeck(runs, y, k, i, j);
      }
    }
    SameRising(x[k], y[k]);
  }

  lemma NoMore(runs: seq<Run>, x: seq<seq<nat>>, y: seq<seq<nat>>)
    requires Components(runs, x) && Components(runs, y) && Agree(x, y, |x|)
    ensures |x| == |y|
  {
    if |x| < |y| {
      var j := y[|x|][0];
      assert Rising(y[|x|], |runs|);
      assert Holds(y, |x|, j) && Placed(x, j);
      TogetherSelf(runs, j);
      var d: nat :| Holds(x, d, j);
      OneDeck(runs, y, |x|, d, j);
    }
  }

  lemma OneDeck(runs: seq<Run>, decks: seq<seq<nat>>, d: nat, e: nat, i: nat)
    requires Components(runs, decks) && Holds(decks, d, i) && Holds(decks, e, i)
    ensures d == e
  {
    TogetherSelf(runs, i);
  }

  lemma {:induction false} AgreeUpTo(runs: seq<Run>, x: seq<seq<nat>>, y: seq<seq<nat>>, k: nat)
    requires Components(runs, x) && Components(runs, y) && k <= |x| && k <= |y|
    ensures Agree(x, y, k)
  {
    if k > 0 {
      AgreeUpTo(runs, x, y, k - 1);
      NextDeck(runs, x, y, k - 1);
    }
  }

  /** The stacks are determined by the runs alone: any two listings of the components by first member are the same. */
  lemma StacksAreUnique(runs: seq<Run>, x: seq<seq<nat>>, y: seq<seq<nat>>)
    requires Components(runs, x) && Components(runs, y)
    ensures x == y
  {
    if |x| <= |y| {
      AgreeUpTo(runs, x, y, |x|);
      NoMore(runs, x, y);
    } else {
      AgreeUpTo(runs, y, x, |y|);
      NoMore(runs, y, x);
    }
  }
}
