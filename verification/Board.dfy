/** The board: decks of visible runs placed in sections whose clusters come from every run the board holds. */
module Board {
  import opened Text
  import opened Order
  import opened Chains
  import opened SessionStacks
  import opened Clusters

  // ----- connections

  predicate Crosses(one: Run, other: Run) {
    one.groupId.Some? && other.groupId.Some? && one.groupId != other.groupId && Related(one, other)
  }

  /** The edge two crossing runs record, its groups in code order. */
  function ConnectionOf(one: Run, other: Run): Connection
    requires Crosses(one, other)
  {
    if Less(one.groupId.value, other.groupId.value)
    then Connection(one.groupId.value, other.groupId.value, one.sessionId, other.sessionId, one.taskId == other.taskId)
    else Connection(other.groupId.value, one.groupId.value, other.sessionId, one.sessionId, one.taskId == other.taskId)
  }

  predicate SameKey(a: Connection, b: Connection) {
    a.from == b.from && a.to == b.to && a.fromSessionId == b.fromSessionId && a.toSessionId == b.toSessionId
  }

  /** Map.set under the connection's key: replace in place, or append. */
  function Put(found: seq<Connection>, c: Connection): seq<Connection> {
    if found == [] then [c]
    else if SameKey(found[0], c) then [c] + found[1..]
    else [found[0]] + Put(found[1..], c)
  }

  lemma {:induction false} PutEnds(found: seq<Connection>, c: Connection)
    ensures Ends(Put(found, c)) == Ends(found) + {(c.from, c.to)}
  {
    if found == [] {
      assert Ends([c]) == {(c.from, c.to)};
    } else {
      EndsCons(found[0], found[1..]);
      assert found == [found[0]] + found[1..];
      if SameKey(found[0], c) {
        EndsCons(c, found[1..]);
      } else {
        PutEnds(found[1..], c);
        EndsCons(found[0], Put(found[1..], c));
      }
    }
  }

  lemma EndsCons(c: Connection, rest: seq<Connection>)
    ensures Ends([c] + rest) == {(c.from, c.to)} + Ends(rest)
  {
    forall e | e in {(c.from, c.to)} + Ends(rest) ensures e in Ends([c] + rest) {
      if e in Ends(rest) {
        var d :| d in rest && e == (d.from, d.to);
        assert d in [c] + rest;
      } else {
        assert c in [c] + rest;
      }
    }
  }

  // ----- what a connection says

  /** Runs i and j name different sessions and are kin, and this is the connection they record: the lesser session first. */
  ghost predicate Records(all: seq<Run>, i: int, j: int, c: Connection) {
    && 0 <= i < |all| && 0 <= j < |all| && i != j && Kin(all[i], all[j])
    && all[i].groupId == Some(c.from) && all[j].groupId == Some(c.to) && Less(c.from, c.to)
    && c.fromSessionId == all[i].sessionId && c.toSessionId == all[j].sessionId
    && (c.sameTask <==> all[i].taskId == all[j].taskId)
  }

  /** Connections of one key are one connection. */
  ghost predicate OneAKey(found: seq<Connection>) {
    forall i, j :: 0 <= i < j < |found| ==> !SameKey(found[i], found[j])
  }

  lemma RecordsOf(all: seq<Run>, i: nat, j: nat)
    requires i < |all| && j < |all| && i != j && Crosses(all[i], all[j])
    ensures Records(all, i, j, ConnectionOf(all[i], all[j])) || Records(all, j, i, ConnectionOf(all[i], all[j]))
  {
    hide Less;
    Connected(all[i].groupId.value, all[j].groupId.value);
  }

  lemma CrossesIff(a: Run, b: Run)
    ensures Crosses(a, b) <==> a.groupId.Some? && b.groupId.Some? && a.groupId.value != b.groupId.value && Kin(a, b)
  {}

  lemma {:induction false} PutHolds(found: seq<Connection>, c: Connection)
    ensures c in Put(found, c) && (forall d :: d in Put(found, c) ==> d == c || d in found)
    ensures forall d :: d in found && !SameKey(d, c) ==> d in Put(found, c)
    ensures OneAKey(found) ==> OneAKey(Put(found, c))
  {
    if found == [] {
      assert c in [c];
    } else if SameKey(found[0], c) {
      var after := [c] + found[1..];
      assert Put(found, c) == after && c in after;
      forall d | d in found && !SameKey(d, c) ensures d in after { assert found == [found[0]] + found[1..]; }
    } else {
      PutHolds(found[1..], c);
      var after := [found[0]] + Put(found[1..], c);
      assert found == [found[0]] + found[1..];
      if OneAKey(found) {
        forall i, j | 0 <= i < j < |found[1..]| ensures !SameKey(found[1..][i], found[1..][j]) { assert found[1..][i] == found[i + 1] && found[1..][j] == found[j + 1]; }
        forall i, j | 0 <= i < j < |after| ensures !SameKey(after[i], after[j]) {
          if i == 0 {
            assert after[j] == Put(found[1..], c)[j - 1] && after[j] in Put(found[1..], c);
            if after[j] != c { var m :| 0 <= m < |found[1..]| && found[1..][m] == after[j]; assert found[m + 1] == after[j]; }
          } else {
            assert after[i] == Put(found[1..], c)[i - 1] && after[j] == Put(found[1..], c)[j - 1];
          }
        }
      }
    }
  }

  /** What the loops have found: each a recorded connection, each recorded pair's key among them, none twice. */
  ghost predicate Found(all: seq<Run>, found: seq<Connection>, left: nat, right: nat) {
    && OneAKey(found) && (forall c :: c in found ==> exists i, j :: Records(all, i, j, c))
    && forall i: nat, j: nat {:trigger KeyedBy(all, found, i, j)} ::
         i < j < |all| && (i < left || (i == left && j < right)) && Crosses(all[i], all[j]) ==> KeyedBy(all, found, i, j)
  }

  ghost predicate KeyedBy(all: seq<Run>, found: seq<Connection>, i: nat, j: nat)
    requires i < |all| && j < |all| && Crosses(all[i], all[j])
  {
    exists c :: c in found && SameKey(c, ConnectionOf(all[i], all[j]))
  }

  lemma FoundNext(all: seq<Run>, found: seq<Connection>, left: nat, right: nat)
    requires left < right < |all| && Found(all, found, left, right)
    ensures Crosses(all[left], all[right]) ==> Found(all, Put(found, ConnectionOf(all[left], all[right])), left, right + 1)
    ensures !Crosses(all[left], all[right]) ==> Found(all, found, left, right + 1)
  {
    hide Crosses, ConnectionOf, OneAKey, Records;
    if Crosses(all[left], all[right]) {
      var c := ConnectionOf(all[left], all[right]);
      var after := Put(found, c);
      PutHolds(found, c);
      RecordsOf(all, left, right);
      forall i: nat, j: nat | i < j < |all| && (i < left || (i == left && j < right + 1)) && Crosses(all[i], all[j]) ensures KeyedBy(all, after, i, j) {
        if i == left && j == right {
          assert c in after && SameKey(c, c);
        } else {
          assert KeyedBy(all, found, i, j);
          var d :| d in found && SameKey(d, ConnectionOf(all[i], all[j]));
          if SameKey(d, c) { assert c in after && SameKey(c, ConnectionOf(all[i], all[j])); } else { assert d in after; }
        }
      }
    }
  }

  lemma FoundRow(all: seq<Run>, found: seq<Connection>, left: nat)
    requires left < |all| && Found(all, found, left, |all|)
    ensures Found(all, found, left + 1, 0)
  {
    hide Crosses, OneAKey, Records;
    forall i: nat, j: nat | i < j < |all| && (i < left + 1 || (i == left + 1 && j < 0)) && Crosses(all[i], all[j]) ensures KeyedBy(all, found, i, j) {
      assert i < left || (i == left && j < |all|);
    }
  }

  /** Every pair of groups some two runs of the board connect. */
  ghost function Recorded(all: seq<Run>): set<(string, string)> {
    set i, j | 0 <= i < j < |all| && Crosses(all[i], all[j]) :: (ConnectionOf(all[i], all[j]).from, ConnectionOf(all[i], all[j]).to)
  }

  ghost function RecordedBefore(all: seq<Run>, left: nat, right: nat): set<(string, string)> {
    set i, j | 0 <= i < j < |all| && (i < left || (i == left && j < right)) && Crosses(all[i], all[j])
      :: (ConnectionOf(all[i], all[j]).from, ConnectionOf(all[i], all[j]).to)
  }

  /** groupConnections: the nested loops, one entry for each key. */
  method GroupConnections(all: seq<Run>) returns (found: seq<Connection>)
    ensures Ends(found) == Recorded(all) && Found(all, found, |all|, 0)
  {
    hide Found;
    found := [];
    NoneFound(all);
    for left := 0 to |all|
      invariant Ends(found) == RecordedBefore(all, left, 0) && Found(all, found, left, 0)
    {
      FoundStart(all, found, left);
      for right := left + 1 to |all|
        invariant Ends(found) == RecordedBefore(all, left, right) && Found(all, found, left, right)
      {
        FoundNext(all, found, left, right);
        if Crosses(all[left], all[right]) {
          var c := ConnectionOf(all[left], all[right]);
          PutEnds(found, c);
          found := Put(found, c);
          RecordedNext(all, left, right);
        } else {
          NotRecorded(all, left, right);
        }
      }
      assert RecordedBefore(all, left, |all|) == RecordedBefore(all, left + 1, 0);
      FoundRow(all, found, left);
    }
    assert RecordedBefore(all, |all|, 0) == Recorded(all);
  }

  lemma NoneFound(all: seq<Run>)
    ensures Found(all, [], 0, 0)
  {}

  /** The row of the last pair: the loop starts at left + 1. */
  lemma FoundStart(all: seq<Run>, found: seq<Connection>, left: nat)
    requires left < |all| && Found(all, found, left, 0)
    ensures Found(all, found, left, left + 1)
  {
    hide Crosses, OneAKey, Records;
    forall i: nat, j: nat | i < j < |all| && (i < left || (i == left && j < left + 1)) && Crosses(all[i], all[j]) ensures KeyedBy(all, found, i, j) {
      assert i < left;
    }
  }

  lemma RecordedNext(all: seq<Run>, left: nat, right: nat)
    requires left < right < |all| && Crosses(all[left], all[right])
    ensures var c := ConnectionOf(all[left], all[right]);
      RecordedBefore(all, left, right + 1) == RecordedBefore(all, left, right) + {(c.from, c.to)}
  {}

  lemma NotRecorded(all: seq<Run>, left: nat, right: nat)
    requires left < right < |all| && !Crosses(all[left], all[right])
    ensures RecordedBefore(all, left, right + 1) == RecordedBefore(all, left, right)
  {}

  // ----- the cluster of a group

  function GroupsOf(runs: seq<Run>): set<string> {
    set r | r in runs && r.groupId.Some? :: r.groupId.value
  }

  /** The cluster of a driving session depends on every run the board holds, and on nothing else. */
  ghost function ClusterOf(all: seq<Run>): map<string, string> {
    Keys(GroupsOf(all), Recorded(all))
  }

  ghost predicate SameCluster(all: seq<Run>, g: string, h: string) {
    g in GroupsOf(all) && h in GroupsOf(all) && Joined(GroupsOf(all), Recorded(all), g, h)
  }

  lemma SameClusterKey(all: seq<Run>, g: string, h: string)
    requires SameCluster(all, g, h)
    ensures ClusterOf(all)[g] == ClusterOf(all)[h]
  {
    var groups, edges := GroupsOf(all), Recorded(all);
    forall x ensures x in Cluster(groups, edges, g) <==> x in Cluster(groups, edges, h) {
      if x in groups {
        LinkOtherWay(groups, edges, g, h);
        if Joined(groups, edges, g, x) { JoinedThrough(groups, edges, h, g, x); }
        if Joined(groups, edges, h, x) { JoinedThrough(groups, edges, g, h, x); }
      }
    }
    assert Cluster(groups, edges, g) == Cluster(groups, edges, h);
  }

  /** Two runs of the board that are related and name sessions name sessions of one cluster. */
  lemma RelatedShareCluster(all: seq<Run>, one: Run, other: Run)
    requires one in all && other in all && Related(one, other) && one.groupId.Some? && other.groupId.Some?
    ensures SameCluster(all, one.groupId.value, other.groupId.value)
  {
    var g, h := one.groupId.value, other.groupId.value;
    var groups, edges := GroupsOf(all), Recorded(all);
    if g == h {
      LinkedSelf<string>(Bound(groups, edges), g);
    } else {
      var i :| 0 <= i < |all| && all[i] == one;
      var j :| 0 <= j < |all| && all[j] == other;
      Asymmetric2(g, h);
      if i < j {
        var c := ConnectionOf(all[i], all[j]);
        assert (c.from, c.to) in edges;
      } else {
        var c := ConnectionOf(all[j], all[i]);
        assert (c.from, c.to) in edges;
      }
      LinkedStep<string>(Bound(groups, edges), g, h);
    }
  }

  lemma Asymmetric2(g: string, h: string)
    requires g != h
    ensures Less(g, h) <==> !Less(h, g)
  {
    Connected(g, h);
    if Less(g, h) { Asymmetric(g, h); }
  }

  ghost predicate Held(visible: seq<Run>, all: seq<Run>) {
    forall r :: r in visible ==> r in all
  }

  /** When every run of a deck names a session, all its sessions lie in one cluster. */
  lemma DeckLiesInOneCluster(all: seq<Run>, visible: seq<Run>, decks: seq<seq<nat>>, d: nat, i: nat, j: nat)
    requires Held(visible, all) && Components(visible, decks) && d < |decks| && Holds(decks, d, i) && Holds(decks, d, j)
    requires i < |visible| && j < |visible|
    requires forall k :: k in decks[d] ==> k < |visible| && visible[k].groupId.Some?
    ensures visible[i].groupId.value in ClusterOf(all) && visible[j].groupId.value in ClusterOf(all)
    ensures ClusterOf(all)[visible[i].groupId.value] == ClusterOf(all)[visible[j].groupId.value]
  {
    assert i in decks[d] && j in decks[d] && visible[i] in visible && visible[j] in visible;
    var of := (k: int) => if 0 <= k < |visible| && k in decks[d] && visible[k].groupId.Some? && visible[k].groupId.value in ClusterOf(all)
                          then Some(ClusterOf(all)[visible[k].groupId.value]) else None;
    forall x: int, y: int | RelatedAt(visible)(x, y) ensures of(x) == of(y) {
      LinkedStep<int>(RelatedAt(visible), x, y);
      TogetherBack(visible, x, y);
      if x in decks[d] { InItsDeck(visible, decks, d, x, y); } else if y in decks[d] { InItsDeck(visible, decks, d, y, x); }
      if x in decks[d] {
        assert visible[x] in visible && visible[y] in visible;
        RelatedShareCluster(all, visible[x], visible[y]);
        SameClusterKey(all, visible[x].groupId.value, visible[y].groupId.value);
      }
    }
    assert Together(visible, i, j);
    Shared<int, Option<string>>(RelatedAt(visible), i, j, of);
  }

  // ----- sections

  /** Decks without a session stand alone; every other deck is a member of a cluster, keyed by the sessions it names. */
  datatype Sections = Sections(loose: seq<nat>, clusters: map<string, map<seq<string>, seq<nat>>>)

  function ClusterFor(keys: map<string, string>, g: string): string {
    if g in keys then keys[g] else g
  }

  /** Where a deck belongs: under its first session's cluster, as the member naming exactly its sessions. */
  ghost predicate Goes(keys: map<string, string>, deck: seq<Run>, cluster: string, member: seq<string>) {
    Lists(member, GroupsOf(deck)) && member != [] && cluster == ClusterFor(keys, member[0])
  }

  ghost predicate In(s: Sections, cluster: string, member: seq<string>, d: nat) {
    cluster in s.clusters && member in s.clusters[cluster] && d in s.clusters[cluster][member]
  }

  ghost predicate Rises(list: seq<nat>, n: nat) {
    (forall k :: 0 <= k < |list| ==> list[k] < n) && forall k, m :: 0 <= k < m < |list| ==> list[k] < list[m]
  }

  /** The first n decks stand where they belong, once each, and nothing else stands anywhere. */
  ghost predicate Homed(keys: map<string, string>, stacks: seq<Stack>, n: nat, s: Sections) {
    && n <= |stacks| && Rises(s.loose, n)
    && (forall d: nat :: d in s.loose <==> d < n && GroupsOf(stacks[d].sessions) == {})
    && (forall c, k, d: nat {:trigger In(s, c, k, d)} :: In(s, c, k, d) ==> d < n && Goes(keys, stacks[d].sessions, c, k))
    && (forall d: nat :: d < n && GroupsOf(stacks[d].sessions) != {} ==> exists c, k :: In(s, c, k, d))
    && (forall c, k :: c in s.clusters && k in s.clusters[c] ==> Rises(s.clusters[c][k], n))
  }

  function PlaceIn(s: Sections, cluster: string, member: seq<string>, d: nat): Sections {
    var members := if cluster in s.clusters then s.clusters[cluster] else map[];
    var list := if member in members then members[member] else [];
    Sections(s.loose, s.clusters[cluster := members[member := list + [d]]])
  }

  lemma PlacedIn(s: Sections, cluster: string, member: seq<string>, d: nat)
    ensures forall c, k, e: nat {:trigger In(PlaceIn(s, cluster, member, d), c, k, e)} ::
      In(PlaceIn(s, cluster, member, d), c, k, e) <==> In(s, c, k, e) || (c == cluster && k == member && e == d)
  {}

  lemma HomedInCluster(keys: map<string, string>, stacks: seq<Stack>, n: nat, s: Sections, cluster: string, member: seq<string>)
    requires Homed(keys, stacks, n, s) && n < |stacks| && Goes(keys, stacks[n].sessions, cluster, member)
    ensures Homed(keys, stacks, n + 1, PlaceIn(s, cluster, member, n))
  {
    var t := PlaceIn(s, cluster, member, n);
    PlacedIn(s, cluster, member, n);
    assert member[0] in GroupsOf(stacks[n].sessions);
    forall d: nat | d < n + 1 && GroupsOf(stacks[d].sessions) != {} ensures exists c, k :: In(t, c, k, d) {
      if d == n {
        assert In(t, cluster, member, n);
      } else {
        var c, k :| In(s, c, k, d);
        assert In(t, c, k, d);
      }
    }
    forall c, k | c in t.clusters && k in t.clusters[c] ensures Rises(t.clusters[c][k], n + 1) {
      if c == cluster && k == member {
      } else {
        assert c in s.clusters && k in s.clusters[c];
      }
    }
  }

  lemma HomedLoose(keys: map<string, string>, stacks: seq<Stack>, n: nat, s: Sections)
    requires Homed(keys, stacks, n, s) && n < |stacks| && GroupsOf(stacks[n].sessions) == {}
    ensures Homed(keys, stacks, n + 1, Sections(s.loose + [n], s.clusters))
  {
    var t := Sections(s.loose + [n], s.clusters);
    forall c, k, d: nat | In(t, c, k, d) ensures d < n + 1 && Goes(keys, stacks[d].sessions, c, k) { assert In(s, c, k, d); }
    forall d: nat | d < n + 1 && GroupsOf(stacks[d].sessions) != {} ensures exists c, k :: In(t, c, k, d) {
      var c, k :| In(s, c, k, d);
      assert In(t, c, k, d);
    }
  }

  /** The first loop: every deck to its place. */
  method PlaceDecks(keys: map<string, string>, stacks: seq<Stack>) returns (s: Sections)
    ensures Homed(keys, stacks, |stacks|, s)
  {
    s := Sections([], map[]);
    for d := 0 to |stacks|
      invariant Homed(keys, stacks, d, s)
    {
      var groups := GroupsOf(stacks[d].sessions);
      var groupIds := SortedKeys(groups);
      if |groupIds| == 0 {
        assert groups == {};
        HomedLoose(keys, stacks, d, s);
        s := Sections(s.loose + [d], s.clusters);
      } else {
        HomedInCluster(keys, stacks, d, s, ClusterFor(keys, groupIds[0]), groupIds);
        s := PlaceIn(s, ClusterFor(keys, groupIds[0]), groupIds, d);
      }
    }
  }

  predicate Shown(members: map<seq<string>, seq<nat>>, g: string) {
    exists k :: k in members && g in k
  }

  lemma HomedEmpty(keys: map<string, string>, stacks: seq<Stack>, n: nat, s: Sections, cluster: string, g: string)
    requires Homed(keys, stacks, n, s) && cluster in s.clusters && !Shown(s.clusters[cluster], g)
    ensures Homed(keys, stacks, n, Sections(s.loose, s.clusters[cluster := s.clusters[cluster][[g] := []]]))
  {
    var t := Sections(s.loose, s.clusters[cluster := s.clusters[cluster][[g] := []]]);
    assert g in [g] && [g] !in s.clusters[cluster];
    forall c, k, d: nat | In(t, c, k, d) ensures In(s, c, k, d) {}
    forall d: nat | d < n && GroupsOf(stacks[d].sessions) != {} ensures exists c, k :: In(t, c, k, d) {
      var c, k :| In(s, c, k, d);
      assert In(t, c, k, d);
    }
    forall c, k | c in t.clusters && k in t.clusters[c] ensures Rises(t.clusters[c][k], n) {
      if c == cluster && k == [g] {
      } else {
        assert c in s.clusters && k in s.clusters[c];
      }
    }
  }

  /** The second loop: a session of a drawn cluster with no deck left gets an empty member. */
  method ShowAll(keys: map<string, string>, stacks: seq<Stack>, start: Sections) returns (s: Sections)
    requires Homed(keys, stacks, |stacks|, start)
    ensures Homed(keys, stacks, |stacks|, s) && s.loose == start.loose && s.clusters.Keys == start.clusters.Keys
    ensures forall g :: g in keys && keys[g] in s.clusters ==> Shown(s.clusters[keys[g]], g)
  {
    s := start;
    var rest := keys.Keys;
    while rest != {}
      invariant rest <= keys.Keys
      invariant Homed(keys, stacks, |stacks|, s) && s.loose == start.loose && s.clusters.Keys == start.clusters.Keys
      invariant forall g :: g in keys.Keys - rest && keys[g] in s.clusters ==> Shown(s.clusters[keys[g]], g)
      decreases |rest|
    {
      var g :| g in rest;
      rest := rest - {g};
      var cluster := keys[g];
      if cluster in s.clusters && !Shown(s.clusters[cluster], g) {
        HomedEmpty(keys, stacks, |stacks|, s, cluster, g);
        StillShown(s.clusters[cluster], g);
        s := Sections(s.loose, s.clusters[cluster := s.clusters[cluster][[g] := []]]);
      }
    }
  }

  lemma StillShown(members: map<seq<string>, seq<nat>>, g: string)
    requires [g] !in members
    ensures Shown(members[[g] := []], g) && forall h :: Shown(members, h) ==> Shown(members[[g] := []], h)
  {
    var after := members[[g] := []];
    assert [g] in after && g in [g];
    forall h | Shown(members, h) ensures Shown(after, h) {
      var k :| k in members && h in k;
      assert k in after;
    }
  }

  /** boardSections, up to the order sections are shown in. */
  method BoardSections(all: seq<Run>, visible: seq<Run>) returns (stacks: seq<Stack>, s: Sections, ghost decks: seq<seq<nat>>)
    ensures Components(visible, decks) && |stacks| == |decks|
    ensures forall d :: 0 <= d < |stacks| ==> stacks[d].sessions == Taken(visible, decks[d])
    ensures Homed(ClusterOf(all), stacks, |stacks|, s)
    ensures forall g :: g in ClusterOf(all) && ClusterOf(all)[g] in s.clusters ==> Shown(s.clusters[ClusterOf(all)[g]], g)
  {
    var connections := GroupConnections(all);
    var groupIds := SortedKeys(GroupsOf(all));
    assert Members(groupIds) == GroupsOf(all);
    var keys := ClusterKeys(groupIds, connections);
    stacks, decks := GroupSessionStacks(visible);
    s := PlaceDecks(keys, stacks);
    s := ShowAll(keys, stacks, s);
  }

  // ----- what the board guarantees

  lemma ListsOnce(x: seq<string>, y: seq<string>, all: set<string>)
    requires Lists(x, all) && Lists(y, all)
    ensures x == y
  {
    SameAscending(x, y);
  }

  lemma {:induction false} SameAscending(x: seq<string>, y: seq<string>)
    requires Ascending(x) && Ascending(y) && forall g :: g in x <==> g in y
    ensures x == y
    decreases |x|
  {
    assert y != [] ==> y[0] in x;
    if x != [] {
      assert x[0] in x && x[0] in y && y[0] in x;
      var k :| 0 <= k < |y| && y[k] == x[0];
      var m :| 0 <= m < |x| && x[m] == y[0];
      if k > 0 && m > 0 { Asymmetric(y[0], x[0]); }
      assert x[0] == y[0];
      RestAscending(x, y);
      RestAscending(y, x);
      SameAscending(x[1..], y[1..]);
      assert x == [x[0]] + x[1..] && y == [y[0]] + y[1..];
    }
  }

  lemma RestAscending(x: seq<string>, y: seq<string>)
    requires x != [] && y != [] && Ascending(x) && Ascending(y) && x[0] == y[0] && forall g :: g in x <==> g in y
    ensures Ascending(x[1..]) && forall g :: g in x[1..] ==> g in y[1..]
  {
    forall i, j | 0 <= i < j < |x[1..]| ensures Less(x[1..][i], x[1..][j]) { assert Less(x[i + 1], x[j + 1]); }
    forall g | g in x[1..] ensures g in y[1..] {
      assert g in x;
      var q :| 0 <= q < |x[1..]| && x[1..][q] == g;
      assert Less(x[0], x[q + 1]);
      Irreflexive(g);
      var m :| 0 <= m < |y| && y[m] == g;
      assert m > 0 && y[1..][m - 1] == g;
    }
  }

  /** Every visible run is in one deck, and that deck in one section: alone, or one member of one cluster. */
  lemma EveryRunHasOnePlace(keys: map<string, string>, visible: seq<Run>, decks: seq<seq<nat>>, stacks: seq<Stack>, s: Sections, i: nat)
    requires Components(visible, decks) && |stacks| == |decks| && Homed(keys, stacks, |stacks|, s) && i < |visible|
    ensures exists d: nat :: Holds(decks, d, i) && forall e: nat :: Holds(decks, e, i) ==> e == d
    ensures forall d: nat :: Holds(decks, d, i) ==>
      && (d in s.loose <==> forall c, k :: !In(s, c, k, d))
      && forall c, k, c', k' :: In(s, c, k, d) && In(s, c', k', d) ==> c == c' && k == k'
  {
    assert Placed(decks, i);
    var d: nat :| Holds(decks, d, i);
    forall e: nat | Holds(decks, e, i) ensures e == d { OneDeck(visible, decks, d, e, i); }
    forall c, k, c', k' | In(s, c, k, d) && In(s, c', k', d) ensures c == c' && k == k' {
      ListsOnce(k, k', GroupsOf(stacks[d].sessions));
    }
    forall c, k | In(s, c, k, d) ensures GroupsOf(stacks[d].sessions) != {} {
      assert k[0] in GroupsOf(stacks[d].sessions);
    }
  }

  lemma DeckGroup(visible: seq<Run>, deck: seq<nat>, g: string) returns (i: nat)
    requires (forall k :: 0 <= k < |deck| ==> deck[k] < |visible|) && g in GroupsOf(Taken(visible, deck))
    ensures i in deck && visible[i].groupId == Some(g)
  {
    var r :| r in Taken(visible, deck) && r.groupId == Some(g);
    var k :| 0 <= k < |deck| && Taken(visible, deck)[k] == r;
    i := deck[k];
  }

  ghost predicate AllNameSessions(sessions: seq<Run>) {
    forall r :: r in sessions ==> r.groupId.Some?
  }

  ghost predicate NameOneSession(sessions: seq<Run>) {
    exists g :: GroupsOf(sessions) == {g}
  }

  /**
   A deck whose runs all name sessions, or that names one session only, stands in the cluster of every session it
   names. The cluster of a session depends on every run held, so hiding runs splits no cluster.
  */
  lemma HidingNeverSplits(all: seq<Run>, visible: seq<Run>, decks: seq<seq<nat>>, stacks: seq<Stack>, s: Sections,
                          d: nat, c: string, k: seq<string>, g: string)
    requires Held(visible, all) && Components(visible, decks) && |stacks| == |decks| && d < |decks|
    requires stacks[d].sessions == Taken(visible, decks[d])
    requires Homed(ClusterOf(all), stacks, |stacks|, s) && In(s, c, k, d)
    requires AllNameSessions(stacks[d].sessions) || NameOneSession(stacks[d].sessions)
    requires g in GroupsOf(stacks[d].sessions)
    ensures g in ClusterOf(all) && c == ClusterOf(all)[g]
  {
    var deck := decks[d];
    assert Rising(deck, |visible|);
    assert k[0] in GroupsOf(stacks[d].sessions);
    var i := DeckGroup(visible, deck, g);
    var j := DeckGroup(visible, deck, k[0]);
    assert visible[i] in visible && g in GroupsOf(all);
    if AllNameSessions(stacks[d].sessions) {
      forall m | m in deck ensures m < |visible| && visible[m].groupId.Some? {
        var q :| 0 <= q < |deck| && deck[q] == m;
        assert Taken(visible, deck)[q] in stacks[d].sessions;
      }
      assert Holds(decks, d, i) && Holds(decks, d, j);
      DeckLiesInOneCluster(all, visible, decks, d, i, j);
    }
  }

  /** The runs of the case that fails: a retry that names no session stands between two that do. */
  function Bridge(g: string, h: string): seq<Run> {
    [Run("a", "p", "t", None, 1, Some(g)), Run("b", "p", "t", None, 2, None), Run("c", "p", "t", None, 1, Some(h))]
  }

  /**
   Where a run of a deck names no session, the deck can hold sessions of two clusters:
   the first and last attempt here are one deck, and their sessions are not connected.
  */
  lemma UnsessionedBridgeSplits(g: string, h: string)
    requires g != h
    ensures Together(Bridge(g, h), 0, 2)
    ensures g in ClusterOf(Bridge(g, h)) && h in ClusterOf(Bridge(g, h)) && ClusterOf(Bridge(g, h))[g] != ClusterOf(Bridge(g, h))[h]
  {
    var all := Bridge(g, h);
    LinkedStep<int>(RelatedAt(all), 0, 1);
    LinkedStep<int>(RelatedAt(all), 1, 2);
    TogetherThrough(all, 0, 1, 2);
    assert all[0] in all && all[2] in all;
    var groups, edges := GroupsOf(all), Recorded(all);
    assert edges == {};
    Alone(groups, g);
    Alone(groups, h);
  }

  lemma Alone(groups: set<string>, g: string)
    requires g in groups
    ensures Keys(groups, {})[g] == g
  {
    forall x | x in Cluster(groups, {}, g) ensures x == g {
      Shared<string, string>(Bound(groups, {}), g, x, y => y);
    }
    assert Cluster(groups, {}, g) == {g};
  }
}
