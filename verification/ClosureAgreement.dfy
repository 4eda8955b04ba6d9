/** The two agreement rules between ticket states and plan markers survive a closure. */
module ClosureAgreement {
  import opened Text
  import opened PlanScan
  import opened Splice
  import opened ScanOrder
  import opened Rewrite
  import opened ClosureTree
  import opened ClosureDelta
  import opened ClosureWrite
  import opened ClosureRows
  import opened ClosureAccepted
  import opened ClosureSafe

  /** The parsed plan keeps positive task numbers, and a later task of the same number replaces an earlier. */
  function TaskOfNumber(tasks: seq<TaskSlice>, n: nat): Option<TaskSlice> {
    if tasks == [] || n == 0 then None
    else
      match TaskOfNumber(tasks[1..], n)
      case Some(t) => Some(t)
      case None => if tasks[0].number == n then Some(tasks[0]) else None
  }

  /** CHECKLIST_STATE: done exactly when every box is checked (a task with no boxes is another rule's concern). */
  predicate ChecklistAgrees(task: Option<TaskSlice>, state: string) {
    task.Some? && task.value.tokens != [] ==> (AllClosed(task.value.tokens) <==> state == "done")
  }

  /** MILESTONE_STATE: a checked milestone has only done tickets, an unstarted one has none. */
  predicate MilestoneAgrees(task: Option<TaskSlice>, state: string) {
    task.Some? ==> (task.value.marker == "x" ==> state == "done") && (task.value.marker == "" ==> state != "done")
  }

  /** Both rules for one ticket: its number and its state, against the plan's tasks. */
  predicate StateAgrees(tasks: seq<TaskSlice>, n: nat, state: string) {
    ChecklistAgrees(TaskOfNumber(tasks, n), state) && MilestoneAgrees(TaskOfNumber(tasks, n), state)
  }

  // ----- tasks of the rewritten plan, marker by marker

  /** Task by task the same plan, values mapped by f and section markers by m (given the milestone and old marker). */
  ghost predicate SameMarked(x: seq<TaskSlice>, y: seq<TaskSlice>, f: Token -> string, m: (string, string) -> string) {
    if x == [] || y == [] then x == [] && y == []
    else SameMarkedTask(x[0], y[0], f, m) && SameMarked(x[1..], y[1..], f, m)
  }

  ghost predicate SameMarkedTask(x: TaskSlice, y: TaskSlice, f: Token -> string, m: (string, string) -> string) {
    && x.number == y.number && x.milestone == y.milestone && SameTokens(x.tokens, y.tokens, f)
    && y.marker == m(x.milestone, x.marker)
  }

  ghost predicate Headed(s: Section) {
    forall t :: t in s.tasks ==> t.milestone == s.head.milestone && t.marker == s.head.value
  }

  lemma {:induction false} TasksHeaded(g: Grammar, html: string, start: nat, end: nat, heads: seq<Hit>, milestone: string, marker: string)
    ensures forall t :: t in Tasks(g, html, start, end, heads, milestone, marker) ==> t.milestone == milestone && t.marker == marker
    decreases |heads|
  {
    if heads != [] { TasksHeaded(g, html, start, end, heads[1..], milestone, marker); }
  }

  lemma {:induction false} SectionsHeaded(g: Grammar, html: string, heads: seq<Hit>)
    ensures forall s :: s in Sections(g, html, heads) ==> Headed(s)
    decreases |heads|
  {
    if heads != [] {
      SectionsHeaded(g, html, heads[1..]);
      var head, end := HeadToken(g, html, heads[0]), BlockEnd(g, html, heads);
      TasksHeaded(g, html, heads[0].start, end, MatchAll(g, Task, Slice(html, heads[0].start, end), 0), head.milestone, head.value);
    }
  }

  lemma {:induction false} MarkedTasks(x: seq<TaskSlice>, y: seq<TaskSlice>, milestone: string, marker: string, marker': string,
                                       f: Token -> string, m: (string, string) -> string)
    requires SameTasks(x, y, f) && m(milestone, marker) == marker'
    requires forall t :: t in x ==> t.milestone == milestone && t.marker == marker
    requires forall t :: t in y ==> t.marker == marker'
    ensures SameMarked(x, y, f, m)
  {
    if x != [] {
      assert x[0] in x && y[0] in y;
      MarkedTasks(x[1..], y[1..], milestone, marker, marker', f, m);
    }
  }

  lemma {:induction false} MarkedAppend(x: seq<TaskSlice>, y: seq<TaskSlice>, x': seq<TaskSlice>, y': seq<TaskSlice>,
                                        f: Token -> string, m: (string, string) -> string)
    requires SameMarked(x, y, f, m) && SameMarked(x', y', f, m)
    ensures SameMarked(x + x', y + y', f, m)
  {
    if x == [] {
      assert x + x' == x' && y + y' == y';
    } else {
      MarkedAppend(x[1..], y[1..], x', y', f, m);
      assert (x + x')[1..] == x[1..] + x' && (y + y')[1..] == y[1..] + y';
    }
  }

  lemma {:induction false} MarkedPlan(x: seq<Section>, y: seq<Section>, f: Token -> string, m: (string, string) -> string)
    requires SamePlan(x, y, f) && forall s :: s in x ==> Headed(s)
    requires forall k :: k in Milestones(x) ==> f(k) == m(k.milestone, k.value)
    ensures SameMarked(AllTasks(x), AllTasks(y), f, m)
  {
    if x != [] {
      assert x[0] in x && x[0].head in Milestones(x);
      forall k | k in Milestones(x[1..]) ensures k in Milestones(x) {}
      MarkedPlan(x[1..], y[1..], f, m);
      MarkedTasks(x[0].tasks, y[0].tasks, x[0].head.milestone, x[0].head.value, y[0].head.value, f, m);
      MarkedAppend(x[0].tasks, y[0].tasks, AllTasks(x[1..]), AllTasks(y[1..]), f, m);
    }
  }

  lemma {:induction false} MarkedNumber(x: seq<TaskSlice>, y: seq<TaskSlice>, f: Token -> string, m: (string, string) -> string, n: nat)
    requires SameMarked(x, y, f, m)
    ensures TaskOfNumber(x, n).Some? <==> TaskOfNumber(y, n).Some?
    ensures TaskOfNumber(x, n).Some? ==>
      TaskOfNumber(x, n).value in x && TaskOfNumber(x, n).value.number == n
      && SameMarkedTask(TaskOfNumber(x, n).value, TaskOfNumber(y, n).value, f, m)
  {
    if x != [] && n != 0 { MarkedNumber(x[1..], y[1..], f, m, n); }
  }

  function Kept(): (string, string) -> string {
    (milestone: string, marker: string) => marker
  }

  function Remarked(tasks: seq<TaskSlice>, touched: set<string>): (string, string) -> string {
    (milestone: string, marker: string) => if milestone in touched then MarkerFor(tasks, milestone) else marker
  }

  // ----- one ticket, before and after

  lemma OnlyTask(tasks: seq<TaskSlice>, n: nat)
    requires |Numbered(tasks, n)| == 1 && n > 0
    ensures TaskOfNumber(tasks, n) == Some(Numbered(tasks, n)[0])
  {
    NumberedLast(tasks, n);
  }

  lemma {:induction false} NumberedLast(tasks: seq<TaskSlice>, n: nat)
    requires n > 0
    ensures TaskOfNumber(tasks, n) == if Numbered(tasks, n) == [] then None else Some(Numbered(tasks, n)[|Numbered(tasks, n)| - 1])
  {
    if tasks != [] { NumberedLast(tasks[1..], n); }
  }

  /** After a closure: the rows as they were closed, the touched markers recomputed, everything else as before. */
  ghost predicate Stages(x: seq<TaskSlice>, y: seq<TaskSlice>, z: seq<TaskSlice>, rows: seq<ClosureRow>, closed: set<ClosureRow>, tickets: seq<string>) {
    && SameMarked(x, y, CloseRows(rows, closed), Kept())
    && SameMarked(y, z, MarkHeads(y, Touched(y, tickets)), Remarked(y, Touched(y, tickets)))
    && (forall t :: t in x ==> Indexed(t))
    && (forall r :: r in rows ==> exists id :: id in tickets && TicketNumber(id) == Some(r.number))
  }

  lemma SameClosed(x: seq<Token>, y: seq<Token>, f: Token -> string)
    requires SameTokens(x, y, f) && forall k :: k in x ==> f(k) == k.value
    ensures AllClosed(x) <==> AllClosed(y)
  {
    forall i | 0 <= i < |x| ensures y[i].value == x[i].value { assert SameToken(x[i], y[i], f) && x[i] in x; }
    if AllClosed(x) {
      forall k | k in y ensures k.value == "x" {
        var i :| 0 <= i < |y| && y[i] == k;
        assert x[i] in x;
      }
    }
    if AllClosed(y) {
      forall k | k in x ensures k.value == "x" {
        var i :| 0 <= i < |x| && x[i] == k;
        assert y[i] in y;
      }
    }
  }

  lemma SecondRoundKeepsRows(y: seq<TaskSlice>, z: seq<TaskSlice>, touched: set<string>, n: nat)
    requires SameMarked(y, z, MarkHeads(y, touched), Remarked(y, touched)) && TaskOfNumber(y, n).Some?
    requires forall t :: t in y ==> Indexed(t)
    ensures TaskOfNumber(z, n).Some?
    ensures var s, t := TaskOfNumber(y, n).value, TaskOfNumber(z, n).value;
      && s in y && (AllClosed(s.tokens) <==> AllClosed(t.tokens)) && (t.tokens == [] <==> s.tokens == [])
      && t.marker == Remarked(y, touched)(s.milestone, s.marker)
  {
    MarkedNumber(y, z, MarkHeads(y, touched), Remarked(y, touched), n);
    var s := TaskOfNumber(y, n).value;
    assert Indexed(s);
    forall k | k in s.tokens ensures MarkHeads(y, touched)(k) == k.value {
      var i :| 0 <= i < |s.tokens| && s.tokens[i] == k;
    }
    SameClosed(s.tokens, TaskOfNumber(z, n).value.tokens, MarkHeads(y, touched));
  }

  lemma {:induction false} StillIndexed(x: seq<TaskSlice>, y: seq<TaskSlice>, f: Token -> string, m: (string, string) -> string)
    requires SameMarked(x, y, f, m) && forall t :: t in x ==> Indexed(t)
    ensures forall t :: t in y ==> Indexed(t)
  {
    if x != [] {
      assert x[0] in x && Indexed(x[0]);
      forall i | 0 <= i < |y[0].tokens| ensures y[0].tokens[i].task == Some((y[0].number, i)) {
        assert SameToken(x[0].tokens[i], y[0].tokens[i], f);
      }
      forall t | t in x[1..] ensures t in x {}
      StillIndexed(x[1..], y[1..], f, m);
    }
  }

  lemma TouchedHas(y: seq<TaskSlice>, tickets: seq<string>, id: string)
    requires id in tickets && TicketNumber(id).Some? && Numbered(y, TicketNumber(id).value) != []
    ensures Numbered(y, TicketNumber(id).value)[0].milestone in Touched(y, tickets)
  {}

  /** A proposed ticket's new state agrees with the plan it is written beside. */
  lemma ProposedTicketAgrees(x: seq<TaskSlice>, y: seq<TaskSlice>, z: seq<TaskSlice>, rows: seq<ClosureRow>, closed: set<ClosureRow>,
                             tickets: seq<string>, id: string)
    requires Stages(x, y, z, rows, closed, tickets) && id in tickets && TicketNumber(id).Some?
    requires |Numbered(y, TicketNumber(id).value)| == 1
    ensures StateAgrees(z, TicketNumber(id).value, StateFor(Numbered(y, TicketNumber(id).value)[0]))
  {
    var n := TicketNumber(id).value;
    StillIndexed(x, y, CloseRows(rows, closed), Kept());
    if n > 0 {
      OnlyTask(y, n);
      SecondRoundKeepsRows(y, z, Touched(y, tickets), n);
      TouchedHas(y, tickets, id);
    }
  }

  /** Every other ticket keeps agreeing: its rows are untouched, and its milestone is only checked when they all are. */
  lemma OtherTicketAgrees(x: seq<TaskSlice>, y: seq<TaskSlice>, z: seq<TaskSlice>, rows: seq<ClosureRow>, closed: set<ClosureRow>,
                          tickets: seq<string>, n: nat, state: string)
    requires Stages(x, y, z, rows, closed, tickets)
    requires forall id :: id in tickets ==> TicketNumber(id) != Some(n)
    requires StateAgrees(x, n, state)
    ensures StateAgrees(z, n, state)
  {
    var f := CloseRows(rows, closed);
    MarkedNumber(x, y, f, Kept(), n);
    StillIndexed(x, y, f, Kept());
    if TaskOfNumber(x, n).Some? {
      var s := TaskOfNumber(x, n).value;
      assert Indexed(s);
      forall k | k in s.tokens ensures f(k) == k.value {
        var i :| 0 <= i < |s.tokens| && s.tokens[i] == k;
        assert !IsClosed(k, rows, closed);
      }
      SameClosed(s.tokens, TaskOfNumber(y, n).value.tokens, f);
      SecondRoundKeepsRows(y, z, Touched(y, tickets), n);
    } else {
      MarkedNumber(y, z, MarkHeads(y, Touched(y, tickets)), Remarked(y, Touched(y, tickets)), n);
    }
  }

  // ----- the whole tree

  /** Every ticket file of the source that reads, agrees with the plan text. */
  ghost predicate TreeAgrees(c: Context, tree: Tree, source: PlanSource, html: string) {
    forall id :: IsTicketId(id) && TicketPath(source, id) in tree ==> FileAgrees(c, tree, source, html, id)
  }

  ghost predicate FileAgrees(c: Context, tree: Tree, source: PlanSource, html: string, id: string) {
    var text := TreeText(tree, TicketPath(source, id));
    text.Some? && c.read(text.value, false).Some? && TicketNumber(c.read(text.value, false).value.id).Some? ==>
      StateAgrees(AllTasks(Scan(c.g, html)), TicketNumber(c.read(text.value, false).value.id).value, c.read(text.value, false).value.state)
  }

  /** No ticket file left out of the proposal shares a number with one in it. */
  ghost predicate OthersApart(c: Context, before: Tree, source: PlanSource, p: Proposal) {
    forall id, other :: id in p.tickets && IsTicketId(other) && other !in p.tickets ==> ApartFromOther(c, before, source, id, other)
  }

  ghost predicate ApartFromOther(c: Context, before: Tree, source: PlanSource, id: string, other: string) {
    var text := TreeText(before, TicketPath(source, other));
    text.Some? && c.read(text.value, false).Some? ==> TicketNumber(c.read(text.value, false).value.id) != TicketNumber(id)
  }

  lemma ClosureStages(c: Context, before: Tree, p: Proposal, source: PlanSource, html: string, closed: set<ClosureRow>)
    requires Closable(c, before, p, source, html)
    ensures Stages(AllTasks(Scan(c.g, html)), AllTasks(Scan(c.g, Rowed(c, html, p, closed))),
                   AllTasks(Scan(c.g, Final(c, html, p, closed))), p.rows, closed, p.tickets)
  {
    var rowed, final := Rowed(c, html, p, closed), Final(c, html, p, closed);
    RowedPlan(c, html, p, closed);
    FinalPlan(c, html, p, closed);
    ScanIndexed(c.g, html);
    ScanIndexed(c.g, rowed);
    SectionsHeaded(c.g, html, MatchAll(c.g, Head, html, 0));
    SectionsHeaded(c.g, rowed, MatchAll(c.g, Head, rowed, 0));
    MarkedPlan(Scan(c.g, html), Scan(c.g, rowed), CloseRows(p.rows, closed), Kept());
    var tasks := AllTasks(Scan(c.g, rowed));
    MarkedPlan(Scan(c.g, rowed), Scan(c.g, final), MarkHeads(tasks, Touched(tasks, p.tickets)), Remarked(tasks, Touched(tasks, p.tickets)));
  }

  lemma WrittenTicketAgrees(c: Context, before: Tree, after: Tree, p: Proposal, source: PlanSource, html: string, closed: set<ClosureRow>, id: string)
    requires Closable(c, before, p, source, html) && ClosedTree(c, before, after, p, source, html, closed) && id in p.tickets
    ensures FileAgrees(c, after, source, Final(c, html, p, closed), id)
  {
    var tasks := AllTasks(Scan(c.g, Rowed(c, html, p, closed)));
    assert TicketFits(c, before, source, html, id);
    StillWritable(c, before, p, source, html, closed, id);
    ClosureStages(c, before, p, source, html, closed);
    ProposedTicketAgrees(AllTasks(Scan(c.g, html)), tasks, AllTasks(Scan(c.g, Final(c, html, p, closed))), p.rows, closed, p.tickets, id);
    var text := TreeText(before, TicketPath(source, id)).value;
    var fm := c.read(text, false).value;
    var state := StateFor(Numbered(tasks, TicketNumber(id).value)[0]);
    assert FaithfulFor(c.read, text, false);
    assert RewritesTo(c.read, text, false, fm, state);
  }

  lemma UntouchedTicketAgrees(c: Context, before: Tree, after: Tree, p: Proposal, source: PlanSource, html: string, closed: set<ClosureRow>, id: string)
    requires Closable(c, before, p, source, html)
    requires TreeText(after, TicketPath(source, id)) == TreeText(before, TicketPath(source, id))
    requires forall t :: t in p.tickets ==> ApartFromOther(c, before, source, t, id)
    requires FileAgrees(c, before, source, html, id)
    ensures FileAgrees(c, after, source, Final(c, html, p, closed), id)
  {
    ClosureStages(c, before, p, source, html, closed);
    var text := TreeText(before, TicketPath(source, id));
    if text.Some? && c.read(text.value, false).Some? && TicketNumber(c.read(text.value, false).value.id).Some? {
      var fm := c.read(text.value, false).value;
      forall t | t in p.tickets ensures TicketNumber(t) != Some(TicketNumber(fm.id).value) {
        assert ApartFromOther(c, before, source, t, id);
      }
      OtherTicketAgrees(AllTasks(Scan(c.g, html)), AllTasks(Scan(c.g, Rowed(c, html, p, closed))),
                        AllTasks(Scan(c.g, Final(c, html, p, closed))), p.rows, closed, p.tickets, TicketNumber(fm.id).value, fm.state);
    }
  }

  lemma OtherFileKept(c: Context, before: Tree, after: Tree, p: Proposal, source: PlanSource, html: string, closed: set<ClosureRow>, id: string)
    requires Closable(c, before, p, source, html) && ClosedTree(c, before, after, p, source, html, closed)
    requires IsTicketId(id) && id !in p.tickets && !IsTicketPath(source, source.planPath)
    ensures TicketPath(source, id) in after <==> TicketPath(source, id) in before
    ensures TreeText(after, TicketPath(source, id)) == TreeText(before, TicketPath(source, id))
  {
    assert TicketPath(source, id) != source.planPath;
    forall t | t in p.tickets ensures TicketPath(source, id) != TicketPath(source, t) {
      assert TicketFits(c, before, source, html, t);
      PathsDiffer(source, id, t);
    }
  }

  /** If ticket states agreed with the plan's rows and markers before a closure, they agree after it. */
  lemma AgreementKept(c: Context, before: Tree, after: Tree, p: Proposal, source: PlanSource, html: string, closed: set<ClosureRow>)
    requires Closable(c, before, p, source, html) && ClosedTree(c, before, after, p, source, html, closed)
    requires !IsTicketPath(source, source.planPath)
    requires OthersApart(c, before, source, p) && TreeAgrees(c, before, source, html)
    ensures TreeAgrees(c, after, source, Final(c, html, p, closed))
  {
    forall id | IsTicketId(id) && TicketPath(source, id) in after ensures FileAgrees(c, after, source, Final(c, html, p, closed), id) {
      if id in p.tickets {
        WrittenTicketAgrees(c, before, after, p, source, html, closed, id);
      } else {
        OtherFileKept(c, before, after, p, source, html, closed, id);
        assert FileAgrees(c, before, source, html, id);
        forall t | t in p.tickets ensures ApartFromOther(c, before, source, t, id) {}
        UntouchedTicketAgrees(c, before, after, p, source, html, closed, id);
      }
    }
  }
}
