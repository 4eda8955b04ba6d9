/** What a closure leaves, read back from the written tree: rows, milestone headings and ticket states, each from the tasks as they stand. */
module ClosureOutcome {
  import opened Text
  import opened PlanScan
  import opened Splice
  import opened ScanOrder
  import opened Rewrite
  import opened ClosureTree
  import opened ClosureDelta
  import opened ClosureWrite
  import opened ClosureRows
  import opened ClosureAccepted
  import opened ClosureSafe

  /** A task is done when it has rows and every one reads x. */
  ghost predicate Done(t: TaskSlice) {
    t.tokens != [] && forall k :: k in t.tokens ==> k.value == "x"
  }

  /** Some proposed ticket names a task of this milestone. */
  ghost predicate Proposed(tasks: seq<TaskSlice>, tickets: seq<string>, milestone: string) {
    exists id, t :: id in tickets && t in tasks && t.milestone == milestone && TicketNumber(id) == Some(t.number)
  }

  /** Task by task the same rows, x where the owner closed the row and what they held everywhere else. */
  ghost predicate RowsClosed(was: seq<TaskSlice>, now: seq<TaskSlice>, rows: seq<ClosureRow>, closed: set<ClosureRow>) {
    |now| == |was| && forall i :: 0 <= i < |was| ==> TaskClosed(was[i], now[i], rows, closed)
  }

  ghost predicate TaskClosed(was: TaskSlice, now: TaskSlice, rows: seq<ClosureRow>, closed: set<ClosureRow>) {
    && now.number == was.number && now.milestone == was.milestone && |now.tokens| == |was.tokens|
    && forall j :: 0 <= j < |was.tokens| ==>
         now.tokens[j].value == if ClosedAt(rows, closed, was.number, j) then "x" else was.tokens[j].value
  }

  ghost predicate ClosedAt(rows: seq<ClosureRow>, closed: set<ClosureRow>, number: nat, j: nat) {
    exists r :: r in rows && r in closed && r.number == number && r.index == j
  }

  /** The heading of every milestone a proposed ticket belongs to says whether all its tasks are done; the others are as they were. */
  ghost predicate HeadingsFollow(was: seq<Token>, now: seq<Token>, tasks: seq<TaskSlice>, tickets: seq<string>) {
    |now| == |was| && forall i :: 0 <= i < |was| ==> HeadingFollows(was[i], now[i], tasks, tickets)
  }

  ghost predicate HeadingFollows(was: Token, now: Token, tasks: seq<TaskSlice>, tickets: seq<string>) {
    && now.milestone == was.milestone
    && if Proposed(tasks, tickets, was.milestone)
       then now.value == if forall t :: t in tasks && t.milestone == was.milestone ==> Done(t) then "x" else "wip"
       else now.value == was.value
  }

  /** A proposed ticket keeps its id and says whether the task it names is done. */
  ghost predicate TicketFollows(c: Context, before: Tree, after: Tree, source: PlanSource, tasks: seq<TaskSlice>, id: string) {
    var path := TicketPath(source, id);
    && TreeText(before, path).Some? && TreeText(after, path).Some?
    && var was, now := c.read(TreeText(before, path).value, false), c.read(TreeText(after, path).value, false);
    && was.Some? && now.Some? && now.value.id == was.value.id
    && exists t :: t in tasks && TicketNumber(id) == Some(t.number) && now.value.state == if Done(t) then "done" else "wip"
  }

  // ----- the same plan, place by place

  lemma {:induction false} TasksAt(x: seq<TaskSlice>, y: seq<TaskSlice>, f: Token -> string, i: nat)
    requires SameTasks(x, y, f) && i < |x|
    ensures i < |y| && x[i].number == y[i].number && x[i].milestone == y[i].milestone && SameTokens(x[i].tokens, y[i].tokens, f)
  {
    if i > 0 { TasksAt(x[1..], y[1..], f, i - 1); }
  }

  lemma {:induction false} AsManyTasks(x: seq<TaskSlice>, y: seq<TaskSlice>, f: Token -> string)
    requires SameTasks(x, y, f)
    ensures |x| == |y|
  {
    if x != [] { AsManyTasks(x[1..], y[1..], f); }
  }

  lemma {:induction false} HeadsAre(x: seq<Section>, y: seq<Section>, f: Token -> string)
    requires SamePlan(x, y, f)
    ensures |Milestones(x)| == |Milestones(y)|
    ensures forall i :: 0 <= i < |Milestones(x)| ==> SameToken(Milestones(x)[i], Milestones(y)[i], f)
  {
    if x != [] {
      HeadsAre(x[1..], y[1..], f);
      assert Milestones(x) == [x[0].head] + Milestones(x[1..]) && Milestones(y) == [y[0].head] + Milestones(y[1..]);
    }
  }

  // ----- the rows

  lemma RowsRead(x: seq<TaskSlice>, y: seq<TaskSlice>, rows: seq<ClosureRow>, closed: set<ClosureRow>)
    requires SameTasks(x, y, CloseRows(rows, closed)) && forall t :: t in x ==> Indexed(t)
    ensures RowsClosed(x, y, rows, closed) && forall t :: t in y ==> Indexed(t)
  {
    var f := CloseRows(rows, closed);
    AsManyTasks(x, y, f);
    forall i | 0 <= i < |x| ensures TaskClosed(x[i], y[i], rows, closed) && Indexed(y[i]) {
      TasksAt(x, y, f, i);
      assert x[i] in x && Indexed(x[i]);
      forall j | 0 <= j < |x[i].tokens|
        ensures y[i].tokens[j].task == Some((y[i].number, j))
        ensures y[i].tokens[j].value == if ClosedAt(rows, closed, x[i].number, j) then "x" else x[i].tokens[j].value
      {
        assert SameToken(x[i].tokens[j], y[i].tokens[j], f);
        assert IsClosed(x[i].tokens[j], rows, closed) <==> ClosedAt(rows, closed, x[i].number, j);
      }
    }
  }

  /** The second round leaves every row. */
  lemma RowsStay(y: seq<TaskSlice>, z: seq<TaskSlice>, touched: set<string>)
    requires SameTasks(y, z, MarkHeads(y, touched)) && forall t :: t in y ==> Indexed(t)
    ensures RowsClosed(y, z, [], {})
  {
    AsManyTasks(y, z, MarkHeads(y, touched));
    forall i | 0 <= i < |y| ensures TaskClosed(y[i], z[i], [], {}) {
      TasksAt(y, z, MarkHeads(y, touched), i);
      assert y[i] in y && Indexed(y[i]);
      forall j | 0 <= j < |y[i].tokens| ensures z[i].tokens[j].value == y[i].tokens[j].value {
        assert SameToken(y[i].tokens[j], z[i].tokens[j], MarkHeads(y, touched));
      }
    }
  }

  lemma BothRounds(x: seq<TaskSlice>, y: seq<TaskSlice>, z: seq<TaskSlice>, rows: seq<ClosureRow>, closed: set<ClosureRow>)
    requires RowsClosed(x, y, rows, closed) && RowsClosed(y, z, [], {})
    ensures RowsClosed(x, z, rows, closed)
  {
    forall i | 0 <= i < |x| ensures TaskClosed(x[i], z[i], rows, closed) {
      assert TaskClosed(x[i], y[i], rows, closed) && TaskClosed(y[i], z[i], [], {});
    }
  }

  lemma StaysDone(s: TaskSlice, t: TaskSlice)
    requires TaskClosed(s, t, [], {})
    ensures Done(s) <==> Done(t)
    ensures AllClosed(s.tokens) <==> Done(s)
  {
    forall j | 0 <= j < |s.tokens| ensures t.tokens[j].value == s.tokens[j].value {}
    if Done(s) {
      forall k | k in t.tokens ensures k.value == "x" { var j :| 0 <= j < |t.tokens| && t.tokens[j] == k; assert s.tokens[j] in s.tokens; }
    }
    if Done(t) {
      forall k | k in s.tokens ensures k.value == "x" { var j :| 0 <= j < |s.tokens| && s.tokens[j] == k; assert t.tokens[j] in t.tokens; }
    }
  }

  // ----- the headings

  lemma AllStayDone(y: seq<TaskSlice>, z: seq<TaskSlice>, milestone: string)
    requires RowsClosed(y, z, [], {})
    ensures (forall t :: t in y && t.milestone == milestone ==> AllClosed(t.tokens)) <==> forall t :: t in z && t.milestone == milestone ==> Done(t)
  {
    hide Done, AllClosed;
    forall i | 0 <= i < |y| ensures y[i].milestone == z[i].milestone && (AllClosed(y[i].tokens) <==> Done(z[i])) {
      assert TaskClosed(y[i], z[i], [], {});
      StaysDone(y[i], z[i]);
    }
    if forall t :: t in y && t.milestone == milestone ==> AllClosed(t.tokens) {
      forall t | t in z && t.milestone == milestone ensures Done(t) {
        var i :| 0 <= i < |z| && z[i] == t;
        assert y[i] in y;
      }
    }
    if forall t :: t in z && t.milestone == milestone ==> Done(t) {
      forall t | t in y && t.milestone == milestone ensures AllClosed(t.tokens) {
        var i :| 0 <= i < |y| && y[i] == t;
        assert z[i] in z;
      }
    }
  }

  lemma TouchedIff(y: seq<TaskSlice>, z: seq<TaskSlice>, tickets: seq<string>, milestone: string)
    requires RowsClosed(y, z, [], {})
    requires forall id :: id in tickets ==> TicketNumber(id).Some? && |Numbered(y, TicketNumber(id).value)| == 1
    ensures milestone in Touched(y, tickets) <==> Proposed(z, tickets, milestone)
  {
    if milestone in Touched(y, tickets) {
      var id :| id in tickets && TicketNumber(id).Some? && Numbered(y, TicketNumber(id).value) != []
        && Numbered(y, TicketNumber(id).value)[0].milestone == milestone;
      var t := TaskNamed(y, z, id);
      assert t in z && TicketNumber(id) == Some(t.number);
    }
    if id, t :| id in tickets && t in z && t.milestone == milestone && TicketNumber(id) == Some(t.number) {
      var i :| 0 <= i < |z| && z[i] == t;
      assert TaskClosed(y[i], z[i], [], {});
      NumberedIff(y, t.number);
      assert y[i] in Numbered(y, t.number);
      assert Numbered(y, t.number)[0] == y[i];
    }
  }

  /** The one task a ticket names, as the final plan has it. */
  lemma TaskNamed(y: seq<TaskSlice>, z: seq<TaskSlice>, id: string) returns (t: TaskSlice)
    requires RowsClosed(y, z, [], {}) && TicketNumber(id).Some? && |Numbered(y, TicketNumber(id).value)| == 1
    ensures t in z && TicketNumber(id) == Some(t.number)
    ensures TaskClosed(Numbered(y, TicketNumber(id).value)[0], t, [], {})
  {
    var s := Numbered(y, TicketNumber(id).value)[0];
    NumberedIff(y, TicketNumber(id).value);
    assert s in Numbered(y, TicketNumber(id).value);
    var i :| 0 <= i < |y| && y[i] == s;
    t := z[i];
    assert TaskClosed(y[i], z[i], [], {});
  }

  lemma HeadRead(g: Token, h: Token, k: Token, f: Token -> string, y: seq<TaskSlice>, z: seq<TaskSlice>, tickets: seq<string>)
    requires SameToken(g, h, f) && f(g) == g.value && SameToken(h, k, MarkHeads(y, Touched(y, tickets))) && g.task.None?
    requires RowsClosed(y, z, [], {})
    requires forall id :: id in tickets ==> TicketNumber(id).Some? && |Numbered(y, TicketNumber(id).value)| == 1
    ensures HeadingFollows(g, k, z, tickets)
  {
    hide Touched, RowsClosed, AllClosed, Done;
    TouchedIff(y, z, tickets, g.milestone);
    AllStayDone(y, z, g.milestone);
  }

  // ----- the written plan

  /** Every heading and row of the written plan, read off its own scan. */
  lemma PlanReads(c: Context, html: string, p: Proposal, closed: set<ClosureRow>)
    requires Readable(c.g, html) && RowsGood(p.rows, AllTasks(Scan(c.g, html)))
    requires forall id :: id in p.tickets ==> TicketNumber(id).Some? && |Numbered(AllTasks(Scan(c.g, html)), TicketNumber(id).value)| == 1
    ensures var x, y, z := Scan(c.g, html), Scan(c.g, Rowed(c, html, p, closed)), Scan(c.g, Final(c, html, p, closed));
      && RowsClosed(AllTasks(x), AllTasks(z), p.rows, closed) && HeadingsFollow(Milestones(x), Milestones(z), AllTasks(z), p.tickets)
      && RowsClosed(AllTasks(y), AllTasks(z), [], {})
  {
    hide Scan, AllTasks, Milestones, Readable, RowsGood, MarkHeads, Touched, Rowed, Final, RowsClosed, HeadingFollows, SamePlan, SameTasks;
    var x, y, z := Scan(c.g, html), Scan(c.g, Rowed(c, html, p, closed)), Scan(c.g, Final(c, html, p, closed));
    var f := CloseRows(p.rows, closed);
    RowedPlan(c, html, p, closed);
    FinalPlan(c, html, p, closed);
    SameAllTasks(x, y, f);
    SameAllTasks(y, z, FinalMarks(c, html, p, closed));
    ScanIndexed(c.g, html);
    RowsRead(AllTasks(x), AllTasks(y), p.rows, closed);
    RowsStay(AllTasks(y), AllTasks(z), Touched(AllTasks(y), p.tickets));
    BothRounds(AllTasks(x), AllTasks(y), AllTasks(z), p.rows, closed);
    HeadsAre(x, y, f);
    HeadsAre(y, z, FinalMarks(c, html, p, closed));
    forall id | id in p.tickets ensures TicketNumber(id).Some? && |Numbered(AllTasks(y), TicketNumber(id).value)| == 1 {
      SameNumbered(AllTasks(x), AllTasks(y), f, TicketNumber(id).value);
    }
    forall i | 0 <= i < |Milestones(x)| ensures HeadingFollows(Milestones(x)[i], Milestones(z)[i], AllTasks(z), p.tickets) {
      assert Milestones(x)[i] in Milestones(x);
      HeadRead(Milestones(x)[i], Milestones(y)[i], Milestones(z)[i], f, AllTasks(y), AllTasks(z), p.tickets);
    }
  }

  // ----- the written tree

  lemma TicketReadsBack(c: Context, before: Tree, after: Tree, p: Proposal, source: PlanSource, html: string, closed: set<ClosureRow>, id: string)
    requires Closable(c, before, p, source, html) && ClosedTree(c, before, after, p, source, html, closed) && id in p.tickets
    requires RowsClosed(AllTasks(Scan(c.g, Rowed(c, html, p, closed))), AllTasks(Scan(c.g, Final(c, html, p, closed))), [], {})
    ensures TicketFollows(c, before, after, source, AllTasks(Scan(c.g, Final(c, html, p, closed))), id)
  {
    hide Scan, AllTasks, RowsClosed, Rowed, Final, PutState, Readable, RowsGood;
    var y, z := AllTasks(Scan(c.g, Rowed(c, html, p, closed))), AllTasks(Scan(c.g, Final(c, html, p, closed)));
    StillWritable(c, before, p, source, html, closed, id);
    var t := TaskNamed(y, z, id);
    StaysDone(Numbered(y, TicketNumber(id).value)[0], t);
    var text := TreeText(before, TicketPath(source, id)).value;
    StateReadsBack(c.read, text, StateFor(Numbered(y, TicketNumber(id).value)[0]));
  }

  lemma StateReadsBack(read: Reader, text: string, w: string)
    requires Faithful(read) && read(text, false).Some? && IsState(w)
    ensures var fm, now := read(text, false).value, read(PutState(text, read(text, false).value, w), false);
      now.Some? && now.value.id == fm.id && now.value.state == w
  {
    assert FaithfulFor(read, text, false);
    assert RewritesTo(read, text, false, read(text, false).value, w);
  }

  lemma ClosableNames(c: Context, before: Tree, p: Proposal, source: PlanSource, html: string)
    requires Closable(c, before, p, source, html)
    ensures Readable(c.g, html) && RowsGood(p.rows, AllTasks(Scan(c.g, html)))
    ensures forall id :: id in p.tickets ==> TicketNumber(id).Some? && |Numbered(AllTasks(Scan(c.g, html)), TicketNumber(id).value)| == 1
  {
    hide Scan, AllTasks, Readable, RowsGood;
    forall id | id in p.tickets ensures TicketNumber(id).Some? && |Numbered(AllTasks(Scan(c.g, html)), TicketNumber(id).value)| == 1 {
      assert TicketFits(c, before, source, html, id);
    }
  }

  /**
   What applying an owner's choices writes: in the plan, x on exactly the closed rows and every milestone a proposed ticket
   belongs to marked x or wip by its tasks as they now stand; in each proposed ticket, done or wip by its own task; every
   other file as it was.
  */
  lemma AppliedReads(c: Context, before: Tree, p: Proposal, source: PlanSource, html: string, closed: set<ClosureRow>)
    requires Closable(c, before, p, source, html)
    ensures Applied(c, before, p, closed).Some? && TreeText(Applied(c, before, p, closed).value, source.planPath).Some?
    ensures var after := Applied(c, before, p, closed).value;
      var x, z := Scan(c.g, html), Scan(c.g, TreeText(after, source.planPath).value);
      && RowsClosed(AllTasks(x), AllTasks(z), p.rows, closed)
      && HeadingsFollow(Milestones(x), Milestones(z), AllTasks(z), p.tickets)
      && (forall id :: id in p.tickets ==> TicketFollows(c, before, after, source, AllTasks(z), id))
      && after.Keys == before.Keys
      && (forall path :: path in before && path != source.planPath && (forall id :: id in p.tickets ==> path != TicketPath(source, id)) ==>
            after[path] == before[path])
  {
    hide Scan, AllTasks, Milestones, Readable, RowsGood, RowsClosed, HeadingsFollow, TicketFollows, Rowed, Final, Applied, TicketFits, DistinctNumbers;
    AppliedIs(c, before, p, source, html, closed);
    ClosableNames(c, before, p, source, html);
    PlanReads(c, html, p, closed);
    var after := Applied(c, before, p, closed).value;
    forall id | id in p.tickets ensures TicketFollows(c, before, after, source, AllTasks(Scan(c.g, Final(c, html, p, closed))), id) {
      TicketReadsBack(c, before, after, p, source, html, closed, id);
    }
    forall path ensures path in after <==> path in before { EveryFileFine(c, before, after, p, source, html, closed, path); }
  }
}
