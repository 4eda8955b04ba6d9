/** Clusters of driving sessions: union-find by least member over a map, and the board drawn from it. */
module Clusters {
  import opened Chains
  import opened Order

  /** Two groups joined by a recorded connection, either way round. */
  function Bound(groups: set<string>, edges: set<(string, string)>): (string, string) -> bool {
    (x: string, y: string) => x in groups && y in groups && ((x, y) in edges || (y, x) in edges)
  }

  ghost predicate Joined(groups: set<string>, edges: set<(string, string)>, x: string, y: string) {
    Linked<string>(Bound(groups, edges), x, y)
  }

  /** Everything a group is joined to, itself included. */
  ghost function Cluster(groups: set<string>, edges: set<(string, string)>, g: string): (s: set<string>)
    requires g in groups
    ensures g in s
  {
    LinkedSelf<string>(Bound(groups, edges), g);
    set h | h in groups && Joined(groups, edges, g, h)
  }

  /** Each group named by the least member of its cluster: a function of the two sets, whatever order they came in. */
  ghost function Keys(groups: set<string>, edges: set<(string, string)>): map<string, string> {
    map g | g in groups :: KeyOf(groups, edges, g)
  }

  ghost function KeyOf(groups: set<string>, edges: set<(string, string)>, g: string): string
    requires g in groups
  {
    Least(Cluster(groups, edges, g))
  }

  // ----- what a cluster's key is

  ghost predicate Edge(groups: set<string>, edges: set<(string, string)>, x: string, y: string) {
    x in groups && y in groups && ((x, y) in edges || (y, x) in edges)
  }

  /** A way from x to y along recorded edges, either way round. */
  ghost predicate Way(groups: set<string>, edges: set<(string, string)>, p: seq<string>, x: string, y: string) {
    p != [] && p[0] == x && p[|p| - 1] == y && forall k :: 0 <= k < |p| - 1 ==> Edge(groups, edges, p[k], p[k + 1])
  }

  ghost predicate Reached(groups: set<string>, edges: set<(string, string)>, x: string, y: string) {
    exists p :: Way(groups, edges, p, x, y)
  }

  lemma ReachedIff(groups: set<string>, edges: set<(string, string)>, x: string, y: string)
    ensures Reached(groups, edges, x, y) <==> Joined(groups, edges, x, y)
  {
    forall a: string, b: string ensures Bound(groups, edges)(a, b) <==> Edge(groups, edges, a, b) {}
    if p :| Way(groups, edges, p, x, y) { assert Joins<string>(Bound(groups, edges), p, x, y); }
    if Joined(groups, edges, x, y) { var p: seq<string> :| Joins<string>(Bound(groups, edges), p, x, y); assert Way(groups, edges, p, x, y); }
  }

  /** The key of a group is reached from it along recorded edges, and is first, in code order, of all groups that are. */
  lemma KeyIsFirstReached(groups: set<string>, edges: set<(string, string)>, g: string)
    requires g in groups
    ensures var key := Keys(groups, edges)[g];
      key in groups && Reached(groups, edges, g, key) && forall h :: h in groups && Reached(groups, edges, g, h) ==> h == key || Less(key, h)
  {
    hide Less;
    forall h: string ensures Reached(groups, edges, g, h) <==> Joined(groups, edges, g, h) { ReachedIff(groups, edges, g, h); }
    var key := Keys(groups, edges)[g];
    assert IsLeast(key, Cluster(groups, edges, g));
    forall h | h in groups && Reached(groups, edges, g, h) ensures h == key || Less(key, h) { assert h in Cluster(groups, edges, g); }
  }

  // ----- the map of links

  /** Links stay inside the map and only ever lead to a lesser key. */
  ghost predicate DescendsAt(m: map<string, string>, g: string)
    requires g in m
  {
    m[g] in m && AtMost(m[g], g)
  }

  ghost predicate Descends(m: map<string, string>) {
    forall g {:trigger DescendsAt(m, g)} :: g in m ==> DescendsAt(m, g)
  }

  function Below(m: map<string, string>, g: string): set<string> {
    set x | x in m && Less(x, g)
  }

  lemma BelowShrinks(m: map<string, string>, g: string)
    requires Descends(m) && g in m && m[g] != g
    ensures m[g] in m && Less(m[g], g) && |Below(m, m[g])| < |Below(m, g)|
  {
    var h := m[g];
    assert DescendsAt(m, g);
    forall x | x in Below(m, h) ensures x in Below(m, g) { Transitive(x, h, g); }
    Irreflexive(h);
    assert h in Below(m, g) && h !in Below(m, h);
    Smaller(Below(m, h), Below(m, g));
  }

  lemma Smaller(x: set<string>, y: set<string>)
    requires x < y
    ensures |x| < |y|
  {
    assert y == x + (y - x);
  }

  ghost function Root(m: map<string, string>, g: string): (r: string)
    requires Descends(m) && g in m
    ensures r in m && m[r] == r && (m[g] == g <==> r == g)
    decreases |Below(m, g)|
  {
    if m[g] == g then g else
      BelowShrinks(m, g);
      Root(m, m[g])
  }

  lemma {:induction false} RootAtMost(m: map<string, string>, g: string)
    requires Descends(m) && g in m
    ensures AtMost(Root(m, g), g)
    decreases |Below(m, g)|
  {
    if m[g] != g {
      BelowShrinks(m, g);
      RootAtMost(m, m[g]);
      if Root(m, m[g]) != m[g] { Transitive(Root(m, m[g]), m[g], g); }
    }
  }

  /** find: follow links until one leads to itself. */
  method Find(m: map<string, string>, group: string) returns (root: string)
    requires Descends(m) && group in m
    ensures root == Root(m, group)
  {
    root := group;
    while m[root] != root
      invariant root in m && Root(m, root) == Root(m, group)
      decreases |Below(m, root)|
    {
      BelowShrinks(m, root);
      root := m[root];
    }
  }

  lemma LinkedDescends(m: map<string, string>, big: string, small: string)
    requires Descends(m) && big in m && small in m && Less(small, big)
    ensures Descends(m[big := small])
  {
    var n := m[big := small];
    forall g | g in n ensures DescendsAt(n, g) {
      assert DescendsAt(m, g);
    }
  }

  lemma {:induction false} LinkedRoot(m: map<string, string>, big: string, small: string, g: string)
    requires Descends(m) && big in m && small in m && m[big] == big && m[small] == small && Less(small, big) && g in m
    requires Descends(m[big := small])
    ensures Root(m[big := small], g) == if Root(m, g) == big then small else Root(m, g)
    decreases |Below(m, g)|
  {
    var n := m[big := small];
    Irreflexive(small);
    if g == big {
      assert Root(n, small) == small;
    } else if m[g] != g {
      BelowShrinks(m, g);
      LinkedRoot(m, big, small, m[g]);
    }
  }

  // ----- what the loop keeps

  ghost predicate Sound(m: map<string, string>, groups: set<string>, edges: set<(string, string)>) {
    m.Keys == groups && Descends(m) && forall g :: g in m ==> Joined(groups, edges, g, Root(m, g))
  }

  ghost predicate Agreed(m: map<string, string>, x: string, y: string)
    requires Descends(m)
  {
    x in m && y in m ==> Root(m, x) == Root(m, y)
  }

  ghost predicate Seen(m: map<string, string>, done: set<(string, string)>)
    requires Descends(m)
  {
    forall x, y {:trigger Agreed(m, x, y)} :: (x, y) in done ==> Agreed(m, x, y)
  }

  lemma BoundIsSymmetric(groups: set<string>, edges: set<(string, string)>)
    ensures Symmetric<string>(Bound(groups, edges))
  {}

  lemma RootsJoined(m: map<string, string>, groups: set<string>, edges: set<(string, string)>, x: string, y: string)
    requires Sound(m, groups, edges) && x in m && y in m && Joined(groups, edges, x, y)
    ensures Joined(groups, edges, Root(m, x), Root(m, y))
  {
    var rel := Bound(groups, edges);
    BoundIsSymmetric(groups, edges);
    LinkedBack<string>(rel, x, Root(m, x));
    LinkedThrough<string>(rel, Root(m, x), x, y);
    LinkedThrough<string>(rel, Root(m, x), y, Root(m, y));
  }

  ghost predicate RelinkedAt(m: map<string, string>, n: map<string, string>, small: string, big: string, g: string)
    requires Descends(m) && Descends(n) && g in m && g in n
  {
    Root(n, g) == if Root(m, g) == big then small else Root(m, g)
  }

  ghost predicate Relinked(m: map<string, string>, n: map<string, string>, small: string, big: string) {
    && Descends(m) && Descends(n) && n.Keys == m.Keys
    && forall g {:trigger RelinkedAt(m, n, small, big, g)} :: g in m ==> RelinkedAt(m, n, small, big, g)
  }

  lemma RelinkedRoots(m: map<string, string>, big: string, small: string)
    requires Descends(m) && big in m && small in m && m[big] == big && m[small] == small && Less(small, big)
    ensures Relinked(m, m[big := small], small, big)
  {
    LinkedDescends(m, big, small);
    forall g | g in m ensures RelinkedAt(m, m[big := small], small, big, g) {
      LinkedRoot(m, big, small, g);
    }
  }

  lemma StaySeen(m: map<string, string>, n: map<string, string>, small: string, big: string, done: set<(string, string)>)
    requires Relinked(m, n, small, big) && Seen(m, done)
    ensures Seen(n, done)
  {
    forall x, y | (x, y) in done ensures Agreed(n, x, y) {
      assert Agreed(m, x, y);
      if x in m && y in m { assert RelinkedAt(m, n, small, big, x) && RelinkedAt(m, n, small, big, y); }
    }
  }

  lemma StaySound(m: map<string, string>, n: map<string, string>, small: string, big: string,
                  groups: set<string>, edges: set<(string, string)>)
    requires Relinked(m, n, small, big) && Sound(m, groups, edges) && Joined(groups, edges, big, small)
    ensures Sound(n, groups, edges)
  {
    forall g | g in n ensures Joined(groups, edges, g, Root(n, g)) {
      assert RelinkedAt(m, n, small, big, g);
      if Root(m, g) == big { JoinedThrough(groups, edges, g, big, small); }
    }
  }

  lemma JoinedThrough(groups: set<string>, edges: set<(string, string)>, x: string, y: string, z: string)
    requires Joined(groups, edges, x, y) && Joined(groups, edges, y, z)
    ensures Joined(groups, edges, x, z)
  {
    LinkedThrough<string>(Bound(groups, edges), x, y, z);
  }

  lemma LinkKeeps(m: map<string, string>, groups: set<string>, edges: set<(string, string)>, done: set<(string, string)>,
                  x: string, y: string)
    requires Sound(m, groups, edges) && Seen(m, done) && x in m && y in m && Joined(groups, edges, x, y)
    requires Less(Root(m, x), Root(m, y))
    ensures var n := m[Root(m, y) := Root(m, x)];
      Sound(n, groups, edges) && Seen(n, done) && Root(n, x) == Root(n, y)
  {
    hide Joined, Seen, Less;
    var small, big := Root(m, x), Root(m, y);
    LinkOtherWay(groups, edges, x, y);
    RootsJoined(m, groups, edges, y, x);
    RelinkedRoots(m, big, small);
    assert RelinkedAt(m, m[big := small], small, big, x) && RelinkedAt(m, m[big := small], small, big, y);
    StaySeen(m, m[big := small], small, big, done);
    StaySound(m, m[big := small], small, big, groups, edges);
    NotBoth(small, big);
  }

  lemma NotBoth(small: string, big: string)
    requires Less(small, big)
    ensures small != big
  {
    Irreflexive(small);
  }

  lemma LinkOtherWay(groups: set<string>, edges: set<(string, string)>, x: string, y: string)
    requires Joined(groups, edges, x, y)
    ensures Joined(groups, edges, y, x)
  {
    BoundIsSymmetric(groups, edges);
    LinkedBack<string>(Bound(groups, edges), x, y);
  }

  /** Sharing a root and being joined are the same once every connection is seen. */
  lemma RootIffJoined(m: map<string, string>, groups: set<string>, edges: set<(string, string)>, x: string, y: string)
    requires Sound(m, groups, edges) && Seen(m, edges) && x in groups && y in groups
    ensures Root(m, x) == Root(m, y) <==> Joined(groups, edges, x, y)
  {
    var rel := Bound(groups, edges);
    if Root(m, x) == Root(m, y) {
      LinkOtherWay(groups, edges, y, Root(m, y));
      LinkedThrough<string>(rel, x, Root(m, x), y);
    }
    if Joined(groups, edges, x, y) {
      var of := (g: string) => if g in m then Root(m, g) else g;
      forall a, b | rel(a, b) ensures of(a) == of(b) {
        if (a, b) in edges { assert Agreed(m, a, b); } else { assert Agreed(m, b, a); }
      }
      Shared<string, string>(rel, x, y, of);
    }
  }

  lemma RootIsLeast(m: map<string, string>, groups: set<string>, edges: set<(string, string)>, g: string)
    requires Sound(m, groups, edges) && Seen(m, edges) && g in groups
    ensures Root(m, g) == KeyOf(groups, edges, g)
  {
    var s := Cluster(groups, edges, g);
    forall h | h in s ensures AtMost(Root(m, g), h) {
      RootIffJoined(m, groups, edges, g, h);
      RootAtMost(m, h);
    }
    LeastIsUnique(Root(m, g), Least(s), s);
  }

  // ----- the method

  datatype Connection = Connection(from: string, to: string, fromSessionId: string, toSessionId: string, sameTask: bool)

  function Ends(connections: seq<Connection>): set<(string, string)> {
    set c | c in connections :: (c.from, c.to)
  }

  function Members(ids: seq<string>): set<string> {
    set g | g in ids
  }

  lemma JoinedStep(groups: set<string>, edges: set<(string, string)>, x: string, y: string)
    requires (x, y) in edges && x in groups && y in groups
    ensures Joined(groups, edges, x, y) && Joined(groups, edges, y, x)
  {
    LinkedStep<string>(Bound(groups, edges), x, y);
    LinkedStep<string>(Bound(groups, edges), y, x);
  }

  lemma OneMoreSeen(m: map<string, string>, done: set<(string, string)>, x: string, y: string)
    requires Descends(m) && Seen(m, done) && Agreed(m, x, y)
    ensures Seen(m, done + {(x, y)})
  {}

  /** One connection: the root that comes later is linked to the earlier one. */
  method LinkGroups(m: map<string, string>, from: string, to: string, ghost groups: set<string>, ghost edges: set<(string, string)>,
                    ghost done: set<(string, string)>) returns (n: map<string, string>)
    requires Sound(m, groups, edges) && Seen(m, done) && (from, to) in edges && from in m && to in m
    ensures Sound(n, groups, edges) && Seen(n, done + {(from, to)})
  {
    hide Joined, Seen, Less;
    JoinedStep(groups, edges, from, to);
    var left := Find(m, from);
    var right := Find(m, to);
    Connected(left, right);
    n := m;
    if left != right {
      if Less(left, right) {
        LinkKeeps(m, groups, edges, done, from, to);
        n := m[right := left];
      } else {
        LinkKeeps(m, groups, edges, done, to, from);
        n := m[left := right];
      }
    }
    OneMoreSeen(n, done, from, to);
  }

  /** The loop over the connections. */
  method LinkAll(groupIds: seq<string>, connections: seq<Connection>) returns (roots: map<string, string>)
    ensures Sound(roots, Members(groupIds), Ends(connections)) && Seen(roots, Ends(connections))
  {
    ghost var groups, edges := Members(groupIds), Ends(connections);
    roots := map g | g in groupIds :: g;
    Fresh(roots, groups, edges);
    ghost var done := {};
    for i := 0 to |connections|
      invariant Sound(roots, groups, edges) && Seen(roots, done)
      invariant done == Ends(connections[..i])
    {
      var c := connections[i];
      assert connections[..i + 1] == connections[..i] + [c];
      assert Ends(connections[..i + 1]) == done + {(c.from, c.to)};
      if c.from in roots && c.to in roots {
        assert c in connections;
        roots := LinkGroups(roots, c.from, c.to, groups, edges, done);
      } else {
        OneMoreSeen(roots, done, c.from, c.to);
      }
      done := done + {(c.from, c.to)};
    }
    assert connections[..|connections|] == connections;
  }

  ghost predicate Named(keys: map<string, string>, groups: set<string>, edges: set<(string, string)>, g: string) {
    g in keys && g in groups && keys[g] == KeyOf(groups, edges, g)
  }

  lemma NamedAll(keys: map<string, string>, groups: set<string>, edges: set<(string, string)>)
    requires keys.Keys == groups && forall g :: g in groups ==> Named(keys, groups, edges, g)
    ensures keys == Keys(groups, edges)
  {
    hide KeyOf;
    assert forall g :: g in keys ==> Named(keys, groups, edges, g);
  }

  lemma NamedMore(keys: map<string, string>, groups: set<string>, edges: set<(string, string)>, named: set<string>, g: string, root: string)
    requires g in groups && root == KeyOf(groups, edges, g) && forall h :: h in named ==> Named(keys, groups, edges, h)
    ensures forall h :: h in named + {g} ==> Named(keys[g := root], groups, edges, h)
  {
    hide KeyOf;
    forall h | h in named ensures Named(keys[g := root], groups, edges, h) { assert Named(keys, groups, edges, h); }
  }

  /** clusterKeys: every group named by the least member of its connected component. */
  method ClusterKeys(groupIds: seq<string>, connections: seq<Connection>) returns (keys: map<string, string>)
    ensures keys == Keys(Members(groupIds), Ends(connections))
  {
    hide KeyOf, Keys, Seen;
    ghost var groups, edges := Members(groupIds), Ends(connections);
    var roots := LinkAll(groupIds, connections);
    keys := map[];
    var rest := roots.Keys;
    while rest != {}
      invariant rest <= groups && keys.Keys == groups - rest
      invariant forall g :: g in groups - rest ==> Named(keys, groups, edges, g)
      decreases |rest|
    {
      var g :| g in rest;
      RootIsLeast(roots, groups, edges, g);
      var root := Find(roots, g);
      NamedMore(keys, groups, edges, groups - rest, g, root);
      keys := keys[g := root];
      rest := rest - {g};
    }
    NamedAll(keys, groups, edges);
  }

  lemma Fresh(roots: map<string, string>, groups: set<string>, edges: set<(string, string)>)
    requires roots.Keys == groups && forall g :: g in roots ==> roots[g] == g
    ensures Sound(roots, groups, edges)
  {
    forall g | g in roots ensures DescendsAt(roots, g) {}
    forall g | g in roots ensures Joined(groups, edges, g, Root(roots, g)) { LinkedSelf<string>(Bound(groups, edges), g); }
  }
}
