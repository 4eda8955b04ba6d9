/** A deck in the order it ran: down the continuation chain first, then by time. */
module DeckOrder {
  import opened Text
  import opened Sorting
  import opened SessionStacks

  datatype Replay = Replay(itemId: string, repetition: nat)
  datatype CanvasRun = CanvasRun(run: Run, startedAt: string, planRef: Option<string>, replay: Option<Replay>)

  type Tasks = map<string, CanvasRun>

  /** The task this one continues, where the deck holds it. */
  function Prior(tasks: Tasks, task: string): Option<string> {
    if task in tasks && tasks[task].run.continuesTask.Some? && tasks[task].run.continuesTask.value in tasks
    then tasks[task].run.continuesTask else None
  }

  /** Each task's first run. */
  function TasksOf(runs: seq<CanvasRun>): (tasks: Tasks)
    ensures forall t :: t in tasks <==> exists i :: 0 <= i < |runs| && runs[i].run.taskId == t
    ensures forall t :: t in tasks ==> tasks[t] in runs && tasks[t].run.taskId == t
  {
    if runs == [] then map[]
    else
      var last := runs[|runs| - 1];
      var before := TasksOf(runs[..|runs| - 1]);
      if last.run.taskId in before then before else before[last.run.taskId := last]
  }

  /** No continuation leads back to its start: some measure falls at every step. */
  ghost predicate Falls(tasks: Tasks, rank: map<string, nat>) {
    && (forall t :: t in tasks ==> t in rank)
    && forall t :: t in tasks && Prior(tasks, t).Some? ==> FallsAt(tasks, rank, t)
  }

  ghost predicate FallsAt(tasks: Tasks, rank: map<string, nat>, t: string) {
    Prior(tasks, t).Some? && t in rank && Prior(tasks, t).value in rank && rank[Prior(tasks, t).value] < rank[t]
  }

  ghost predicate Acyclic(tasks: Tasks) {
    exists rank :: Falls(tasks, rank)
  }

  /** A task that continues another sits one deeper than it; the others sit at the top. */
  ghost predicate Deep(tasks: Tasks, depth: map<string, nat>, t: string) {
    t in depth && match Prior(tasks, t) case None => depth[t] == 0 case Some(p) => p in depth && depth[t] == depth[p] + 1
  }

  ghost predicate AllDeep(tasks: Tasks, depth: map<string, nat>) {
    forall t {:trigger Deep(tasks, depth, t)} :: t in depth ==> Deep(tasks, depth, t)
  }

  /** Every task seen on the way down still ranks above this one. */
  ghost predicate Above(seen: set<string>, rank: map<string, nat>, task: string) {
    task in rank && forall s :: s in seen ==> s in rank && rank[s] > rank[task]
  }

  ghost predicate Extends(before: map<string, nat>, after: map<string, nat>) {
    forall t :: t in before ==> t in after && after[t] == before[t]
  }

  lemma DeepStays(tasks: Tasks, depth: map<string, nat>, task: string, value: nat)
    requires AllDeep(tasks, depth) && task !in depth && Deep(tasks, depth[task := value], task)
    ensures AllDeep(tasks, depth[task := value])
  {
    var after := depth[task := value];
    forall t | t in after ensures Deep(tasks, after, t) {
      if t != task { assert Deep(tasks, depth, t); }
    }
  }

  /** depthOf: memoised, and stopped by what this descent has already seen, so it ends even on a cycle. */
  method DepthOf(tasks: Tasks, task: string, depth: map<string, nat>, seen: set<string>, ghost rank: map<string, nat>)
    returns (value: nat, after: map<string, nat>, visited: set<string>)
    requires task in tasks && seen <= tasks.Keys && depth.Keys <= tasks.Keys
    ensures seen <= visited <= tasks.Keys && after.Keys <= tasks.Keys && Extends(depth, after)
    ensures task !in seen ==> task in after && after[task] == value
    ensures after.Keys <= depth.Keys + (tasks.Keys - seen)
    ensures Falls(tasks, rank) && AllDeep(tasks, depth) && Above(seen, rank, task) ==> AllDeep(tasks, after) && task in after && after[task] == value
    decreases tasks.Keys - seen
  {
    if task in depth { return depth[task], depth, seen; }
    if task in seen { return 0, depth, seen; }
    visited := seen + {task};
    var prior := Prior(tasks, task);
    after := depth;
    if prior.Some? {
      ghost var good := Falls(tasks, rank) && Above(seen, rank, task);
      if good {
        assert FallsAt(tasks, rank, task);
        assert Above(visited, rank, prior.value);
      }
      var deeper;
      deeper, after, visited := DepthOf(tasks, prior.value, depth, visited, rank);
      value := deeper + 1;
    } else {
      value := 0;
    }
    assert task !in after;
    ghost var shallow := after;
    after := after[task := value];
    if Falls(tasks, rank) && AllDeep(tasks, depth) && Above(seen, rank, task) {
      assert prior.Some? ==> prior.value in shallow;
      DeepStays(tasks, shallow, task, value);
    }
  }

  ghost function Measure(tasks: Tasks): (rank: map<string, nat>)
    requires Acyclic(tasks)
    ensures Falls(tasks, rank)
  {
    var rank :| Falls(tasks, rank);
    rank
  }

  lemma NothingYet(tasks: Tasks, rank: map<string, nat>)
    ensures AllDeep(tasks, map[])
  {}

  lemma NothingAbove(tasks: Tasks, rank: map<string, nat>, task: string)
    requires Falls(tasks, rank) && task in tasks
    ensures Above({}, rank, task)
  {}

  lemma StillIn(before: map<string, nat>, after: map<string, nat>, t: string)
    requires Extends(before, after)
    ensures t in before ==> t in after
  {}

  /** The depth of every task of the deck; on acyclic continuations, its place in the chain. */
  method Depths(runs: seq<CanvasRun>) returns (depth: map<string, nat>)
    ensures depth.Keys == TasksOf(runs).Keys
    ensures Acyclic(TasksOf(runs)) ==> AllDeep(TasksOf(runs), depth)
  {
    hide *;
    var tasks := TasksOf(runs);
    ghost var rank: map<string, nat> := map[];
    if Acyclic(tasks) { rank := Measure(tasks); }
    depth := map[];
    NothingYet(tasks, rank);
    for i := 0 to |runs|
      invariant depth.Keys <= tasks.Keys
      invariant forall k :: 0 <= k < i ==> runs[k].run.taskId in depth
      invariant Acyclic(tasks) ==> Falls(tasks, rank) && AllDeep(tasks, depth)
    {
      var task := runs[i].run.taskId;
      assert task in tasks;
      if Falls(tasks, rank) { NothingAbove(tasks, rank, task); }
      ghost var before := depth;
      var value, after, visited := DepthOf(tasks, task, depth, {}, rank);
      depth := after;
      forall k | 0 <= k < i ensures runs[k].run.taskId in depth { StillIn(before, depth, runs[k].run.taskId); }
    }
    forall t | t in tasks ensures t in depth {
      var i :| 0 <= i < |runs| && runs[i].run.taskId == t;
      assert runs[i].run.taskId in depth;
    }
    assert depth.Keys == tasks.Keys;
  }

  function DepthAt(depth: map<string, nat>, r: CanvasRun): nat {
    if r.run.taskId in depth then depth[r.run.taskId] else 0
  }

  /** Depth, then start, then attempt, then id; `text` is how localeCompare orders two strings. */
  function ByDepth(depth: map<string, nat>, text: (string, string) -> bool): (CanvasRun, CanvasRun) -> bool {
    (a: CanvasRun, b: CanvasRun) =>
      if DepthAt(depth, a) != DepthAt(depth, b) then DepthAt(depth, a) < DepthAt(depth, b)
      else if !(text(a.startedAt, b.startedAt) && text(b.startedAt, a.startedAt)) then text(a.startedAt, b.startedAt)
      else if a.run.attempt != b.run.attempt then a.run.attempt < b.run.attempt
      else text(a.run.sessionId, b.run.sessionId)
  }

  lemma TextChain(text: (string, string) -> bool, a: string, b: string, c: string)
    requires TotalPreorder(text)
    ensures text(a, b) && text(b, c) ==> text(a, c)
    ensures text(a, b) || text(b, a)
  {}

  lemma ByDepthOrders(depth: map<string, nat>, text: (string, string) -> bool)
    requires TotalPreorder(text)
    ensures TotalPreorder(ByDepth(depth, text))
  {
    hide TotalPreorder, DepthAt;
    var le := ByDepth(depth, text);
    forall a, b ensures le(a, b) || le(b, a) {
      TextChain(text, a.startedAt, b.startedAt, a.startedAt);
      TextChain(text, a.run.sessionId, b.run.sessionId, a.run.sessionId);
    }
    forall a, b, c | le(a, b) && le(b, c) ensures le(a, c) {
      ByDepthChain(depth, text, a, b, c);
    }
    OrdersIf(le);
  }

  lemma OrdersIf(le: (CanvasRun, CanvasRun) -> bool)
    requires (forall a, b :: le(a, b) || le(b, a)) && forall a, b, c :: le(a, b) && le(b, c) ==> le(a, c)
    ensures TotalPreorder(le)
  {}

  lemma ByDepthChain(depth: map<string, nat>, text: (string, string) -> bool, a: CanvasRun, b: CanvasRun, c: CanvasRun)
    requires TotalPreorder(text) && ByDepth(depth, text)(a, b) && ByDepth(depth, text)(b, c)
    ensures ByDepth(depth, text)(a, c)
  {
    hide TotalPreorder, DepthAt;
    TextChain(text, a.startedAt, b.startedAt, c.startedAt);
    TextChain(text, c.startedAt, b.startedAt, a.startedAt);
    TextChain(text, b.startedAt, c.startedAt, a.startedAt);
    TextChain(text, c.startedAt, a.startedAt, b.startedAt);
    TextChain(text, a.run.sessionId, b.run.sessionId, c.run.sessionId);
  }

  /** Every run of a task names the same task as the one it continues. */
  ghost predicate Consistent(runs: seq<CanvasRun>) {
    forall i, j :: 0 <= i < |runs| && 0 <= j < |runs| && runs[i].run.taskId == runs[j].run.taskId
      ==> runs[i].run.continuesTask == runs[j].run.continuesTask
  }

  /** A run comes after every run of the task it continues. */
  ghost predicate FollowsPrior(deck: seq<CanvasRun>) {
    forall i, j :: 0 <= i < |deck| && 0 <= j < |deck| && deck[i].run.continuesTask == Some(deck[j].run.taskId) ==> j < i
  }

  lemma DeeperFollows(runs: seq<CanvasRun>, depth: map<string, nat>, a: CanvasRun, b: CanvasRun)
    requires AllDeep(TasksOf(runs), depth) && depth.Keys == TasksOf(runs).Keys && Consistent(runs)
    requires a in runs && b in runs && a.run.continuesTask == Some(b.run.taskId)
    ensures DepthAt(depth, a) == DepthAt(depth, b) + 1
  {
    var tasks := TasksOf(runs);
    assert a.run.taskId in tasks && b.run.taskId in tasks;
    var first := tasks[a.run.taskId];
    assert first in runs && first.run.continuesTask == a.run.continuesTask;
    assert Deep(tasks, depth, a.run.taskId);
  }

  function FirstAt(deck: seq<CanvasRun>, task: string): (i: nat)
    ensures i <= |deck| && (i < |deck| ==> deck[i].run.taskId == task)
    ensures forall k :: 0 <= k < i ==> deck[k].run.taskId != task
  {
    if deck == [] || deck[0].run.taskId == task then 0 else 1 + FirstAt(deck[1..], task)
  }

  /** A deck can follow its continuations only where they do not run in a circle. */
  lemma FollowingIsAcyclic(runs: seq<CanvasRun>, deck: seq<CanvasRun>)
    requires Consistent(runs) && FollowsPrior(deck) && forall r :: r in deck <==> r in runs
    ensures Acyclic(TasksOf(runs))
  {
    var tasks := TasksOf(runs);
    var rank := map t | t in tasks :: FirstAt(deck, t);
    forall t | t in tasks && Prior(tasks, t).Some? ensures FallsAt(tasks, rank, t) {
      var p := Prior(tasks, t).value;
      assert tasks[t] in deck && tasks[p] in deck;
      var i, j := FirstAt(deck, t), FirstAt(deck, p);
      assert deck[i] in runs && deck[i].run.continuesTask == tasks[t].run.continuesTask;
      assert deck[i].run.continuesTask == Some(deck[j].run.taskId);
    }
    assert Falls(tasks, rank);
  }

  /** Which of two runs reads first: the shallower task; of one depth the earlier start; of one start the lesser attempt; then the id. */
  ghost predicate ReadsFirst(depth: map<string, nat>, text: (string, string) -> bool, a: CanvasRun, b: CanvasRun)
    requires a.run.taskId in depth && b.run.taskId in depth
  {
    var d, e := depth[a.run.taskId], depth[b.run.taskId];
    d < e || (d == e && text(a.startedAt, b.startedAt) &&
      (!text(b.startedAt, a.startedAt) || a.run.attempt < b.run.attempt
       || (a.run.attempt == b.run.attempt && text(a.run.sessionId, b.run.sessionId))))
  }

  ghost predicate ReadsInOrder(depth: map<string, nat>, text: (string, string) -> bool, deck: seq<CanvasRun>) {
    && (forall r :: r in deck ==> r.run.taskId in depth)
    && forall i, j :: 0 <= i < j < |deck| ==> ReadsFirst(depth, text, deck[i], deck[j])
  }

  lemma SortedReads(depth: map<string, nat>, text: (string, string) -> bool, deck: seq<CanvasRun>)
    requires TotalPreorder(text) && Sorted(deck, ByDepth(depth, text)) && forall r :: r in deck ==> r.run.taskId in depth
    ensures ReadsInOrder(depth, text, deck)
  {
    hide TotalPreorder;
    forall i, j | 0 <= i < j < |deck| ensures ReadsFirst(depth, text, deck[i], deck[j]) {
      assert deck[i] in deck && deck[j] in deck;
      StandsBefore(deck, ByDepth(depth, text), i, j);
      TextChain(text, deck[i].startedAt, deck[j].startedAt, deck[i].startedAt);
    }
  }

  lemma DeckTasks(runs: seq<CanvasRun>, deck: seq<CanvasRun>, depth: map<string, nat>)
    requires (forall r :: r in deck <==> r in runs) && depth.Keys == TasksOf(runs).Keys
    ensures forall r :: r in deck ==> r.run.taskId in depth
  {
    forall r | r in deck ensures r.run.taskId in depth { assert r in runs; }
  }

  /** orderedDeck. */
  method OrderedDeck(runs: seq<CanvasRun>, text: (string, string) -> bool) returns (deck: seq<CanvasRun>)
    requires TotalPreorder(text)
    ensures multiset(deck) == multiset(runs)
    ensures exists depth :: deck == Sort(runs, ByDepth(depth, text)) && ReadsInOrder(depth, text, deck) && depth.Keys == TasksOf(runs).Keys && (Acyclic(TasksOf(runs)) ==> AllDeep(TasksOf(runs), depth))
    ensures Consistent(runs) ==> (FollowsPrior(deck) <==> Acyclic(TasksOf(runs)))
  {
    hide *;
    var depth := Depths(runs);
    deck := Sort(runs, ByDepth(depth, text));
    ByDepthOrders(depth, text);
    SortIsSortedPermutation(runs, ByDepth(depth, text));
    DeckTasks(runs, deck, depth);
    SortedReads(depth, text, deck);
    if Acyclic(TasksOf(runs)) && Consistent(runs) { SortedFollows(runs, depth, text, deck); }
    if FollowsPrior(deck) && Consistent(runs) { FollowingIsAcyclic(runs, deck); }
  }

  lemma StandsBefore(deck: seq<CanvasRun>, le: (CanvasRun, CanvasRun) -> bool, i: nat, j: nat)
    requires Sorted(deck, le) && i < |deck| && j < |deck|
    ensures i < j ==> le(deck[i], deck[j])
  {}

  lemma SortedFollows(runs: seq<CanvasRun>, depth: map<string, nat>, text: (string, string) -> bool, deck: seq<CanvasRun>)
    requires AllDeep(TasksOf(runs), depth) && depth.Keys == TasksOf(runs).Keys && Consistent(runs)
    requires Sorted(deck, ByDepth(depth, text)) && forall r :: r in deck <==> r in runs
    ensures FollowsPrior(deck)
  {
    hide AllDeep, Consistent, TasksOf, DepthAt;
    forall i, j | 0 <= i < |deck| && 0 <= j < |deck| && deck[i].run.continuesTask == Some(deck[j].run.taskId) ensures j < i {
      assert deck[i] in runs && deck[j] in runs;
      DeeperFollows(runs, depth, deck[i], deck[j]);
      StandsBefore(deck, ByDepth(depth, text), i, j);
    }
  }
}
