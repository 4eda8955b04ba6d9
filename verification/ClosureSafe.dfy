/** A proposed closure, written: accepted by the proof, and leaving states that agree with the plan. */
module ClosureSafe {
  import opened Text
  import opened PlanScan
  import opened Splice
  import opened Sorting
  import opened ScanOrder
  import opened Rewrite
  import opened ClosureTree
  import opened ClosureDelta
  import opened ClosureExact
  import opened ClosureWrite
  import opened ClosureRows
  import opened ClosureAccepted

  /** A proposal over a readable plan: ticket files resolve, are registered as plan tickets only, and no two
      tickets name the same task. */
  ghost predicate Closable(c: Context, before: Tree, p: Proposal, source: PlanSource, html: string) {
    && Readable(c.g, html) && Faithful(c.read)
    && FindSource(c.registry.plans, p.plan) == Some(source) && TreeText(before, source.planPath) == Some(html)
    && (forall id :: id in p.tickets ==> TicketFits(c, before, source, html, id))
    && DistinctNumbers(p.tickets) && RowsGood(p.rows, AllTasks(Scan(c.g, html))) && RowsOwned(p)
  }

  /** Every row belongs to one of the proposal's tickets. */
  ghost predicate RowsOwned(p: Proposal) {
    forall r :: r in p.rows ==> exists id :: id in p.tickets && TicketNumber(id) == Some(r.number)
  }

  ghost predicate TicketFits(c: Context, before: Tree, source: PlanSource, html: string, id: string) {
    && IsTicketId(id) && Resolves(c, before, source, AllTasks(Scan(c.g, html)), id)
    && !IsPlan(c.registry, TicketPath(source, id)) && !IsLight(c.registry, TicketPath(source, id))
  }

  lemma {:induction false} FoundSource(plans: seq<PlanSource>, planLabel: string)
    ensures FindSource(plans, planLabel).Some? ==> FindSource(plans, planLabel).value in plans
  {
    if plans != [] && plans[0].planLabel != planLabel { FoundSource(plans[1..], planLabel); }
  }

  /** What proposeClosure returns is closable, given distinct well-formed ticket ids and a readable plan. */
  lemma ProposalIsClosable(c: Context, before: Tree, planLabel: string, tickets: seq<string>, built: Option<set<string>>, source: PlanSource, html: string)
    requires Readable(c.g, html) && Faithful(c.read)
    requires FindSource(c.registry.plans, planLabel) == Some(source) && TreeText(before, source.planPath) == Some(html)
    requires Propose(c, before, planLabel, tickets, built).Some?
    requires var p := Propose(c, before, planLabel, tickets, built).value;
      DistinctNumbers(p.tickets) && forall id :: id in p.tickets ==>
        IsTicketId(id) && !IsPlan(c.registry, TicketPath(source, id)) && !IsLight(c.registry, TicketPath(source, id))
    ensures Closable(c, before, Propose(c, before, planLabel, tickets, built).value, source, html)
  {
    ScanIndexed(c.g, html);
    ProposedRowsGood(c, before, source, AllTasks(Scan(c.g, html)), Kept(tickets, built, true));
  }

  // ----- ticket files

  lemma PathsDiffer(source: PlanSource, a: string, b: string)
    requires IsTicketId(a) && IsTicketId(b) && a != b
    ensures TicketPath(source, a) != TicketPath(source, b)
  {
    var n := |source.ticketsPath + "/"|;
    assert TicketPath(source, a)[n..n + 3] == a;
    assert TicketPath(source, b)[n..n + 3] == b;
  }

  ghost predicate Writable(c: Context, before: Tree, source: PlanSource, tasks: seq<TaskSlice>, id: string) {
    && IsTicketId(id) && TicketNumber(id).Some? && Numbered(tasks, TicketNumber(id).value) != []
    && TreeText(before, TicketPath(source, id)).Some? && c.read(TreeText(before, TicketPath(source, id)).value, false).Some?
  }

  function NewTicket(c: Context, before: Tree, source: PlanSource, tasks: seq<TaskSlice>, id: string): File
    requires TicketNumber(id).Some? && Numbered(tasks, TicketNumber(id).value) != []
    requires TreeText(before, TicketPath(source, id)).Some? && c.read(TreeText(before, TicketPath(source, id)).value, false).Some?
  {
    var text := TreeText(before, TicketPath(source, id)).value;
    Utf8(PutState(text, c.read(text, false).value, StateFor(Numbered(tasks, TicketNumber(id).value)[0])))
  }

  /** after is `start` with these tickets' files rewritten, and nothing else. */
  ghost predicate OnlyTickets(c: Context, before: Tree, start: Tree, after: Tree, source: PlanSource, tasks: seq<TaskSlice>, tickets: seq<string>)
  {
    && (forall id :: id in tickets ==>
          (&& Writable(c, before, source, tasks, id)
           && TicketPath(source, id) in after && after[TicketPath(source, id)] == NewTicket(c, before, source, tasks, id)))
    && (forall path :: (forall id :: id in tickets ==> path != TicketPath(source, id)) ==>
          (path in after <==> path in start) && (path in start ==> after[path] == start[path]))
  }

  lemma {:induction false} TicketsWritten(c: Context, before: Tree, start: Tree, source: PlanSource, tasks: seq<TaskSlice>, tickets: seq<string>)
    requires forall id :: id in tickets ==> Writable(c, before, source, tasks, id)
    requires forall i, j :: 0 <= i < j < |tickets| ==> tickets[i] != tickets[j]
    ensures TicketWrites(c, source, before, start, tasks, tickets).Some?
    ensures OnlyTickets(c, before, start, TicketWrites(c, source, before, start, tasks, tickets).value, source, tasks, tickets)
    decreases |tickets|
  {
    if tickets != [] {
      var id, rest := tickets[0], tickets[1..];
      assert id in tickets && Writable(c, before, source, tasks, id);
      forall x | x in rest ensures x in tickets && x != id {
        var i :| 0 <= i < |rest| && rest[i] == x;
        assert tickets[i + 1] == x;
      }
      forall i, j | 0 <= i < j < |rest| ensures rest[i] != rest[j] { assert tickets[i + 1] != tickets[j + 1]; }
      var path := TicketPath(source, id);
      var next := start[path := NewTicket(c, before, source, tasks, id)];
      TicketsWritten(c, before, next, source, tasks, rest);
      var after := TicketWrites(c, source, before, next, tasks, rest).value;
      assert TicketWrites(c, source, before, start, tasks, tickets) == Some(after);
      forall x | x in rest ensures path != TicketPath(source, x) { PathsDiffer(source, id, x); }
      assert path in after && after[path] == next[path];
      forall x | x in tickets ensures TicketPath(source, x) in after && after[TicketPath(source, x)] == NewTicket(c, before, source, tasks, x) {
        if x != id {
          var i :| 0 <= i < |tickets| && tickets[i] == x;
          assert rest[i - 1] == x;
        }
      }
    }
  }

  // ----- the written tree

  /** The tree a closure leaves: the plan restated, each proposed ticket's state rewritten, nothing else. */
  ghost predicate ClosedTree(c: Context, before: Tree, after: Tree, p: Proposal, source: PlanSource, html: string, closed: set<ClosureRow>) {
    var tasks := AllTasks(Scan(c.g, Rowed(c, html, p, closed)));
    && (forall id :: id in p.tickets ==> Writable(c, before, source, tasks, id) && TicketPath(source, id) != source.planPath)
    && source.planPath in after && after[source.planPath] == Utf8(Final(c, html, p, closed))
    && (forall id :: id in p.tickets ==> TicketPath(source, id) in after && after[TicketPath(source, id)] == NewTicket(c, before, source, tasks, id))
    && (forall path :: path != source.planPath && (forall id :: id in p.tickets ==> path != TicketPath(source, id)) ==>
          (path in after <==> path in before) && (path in before ==> after[path] == before[path]))
  }

  lemma SourceIsPlan(c: Context, p: Proposal, source: PlanSource)
    requires FindSource(c.registry.plans, p.plan) == Some(source)
    ensures source in c.registry.plans && IsPlan(c.registry, source.planPath)
  {
    FoundSource(c.registry.plans, p.plan);
  }

  lemma StillWritable(c: Context, before: Tree, p: Proposal, source: PlanSource, html: string, closed: set<ClosureRow>, id: string)
    requires Closable(c, before, p, source, html) && id in p.tickets
    ensures Writable(c, before, source, AllTasks(Scan(c.g, Rowed(c, html, p, closed))), id)
    ensures |Numbered(AllTasks(Scan(c.g, Rowed(c, html, p, closed))), TicketNumber(id).value)| == 1
    ensures TicketPath(source, id) != source.planPath
  {
    RowedPlan(c, html, p, closed);
    SameAllTasks(Scan(c.g, html), Scan(c.g, Rowed(c, html, p, closed)), CloseRows(p.rows, closed));
    assert TicketFits(c, before, source, html, id);
    SameNumbered(AllTasks(Scan(c.g, html)), AllTasks(Scan(c.g, Rowed(c, html, p, closed))), CloseRows(p.rows, closed), TicketNumber(id).value);
    SourceIsPlan(c, p, source);
  }

  lemma DistinctTickets(tickets: seq<string>)
    requires DistinctNumbers(tickets)
    ensures forall i, j :: 0 <= i < j < |tickets| ==> tickets[i] != tickets[j]
  {
    forall i, j | 0 <= i < j < |tickets| ensures tickets[i] != tickets[j] {
      assert TicketNumber(tickets[i]) != TicketNumber(tickets[j]);
    }
  }

  lemma AppliedUnfolds(c: Context, before: Tree, p: Proposal, source: PlanSource, html: string, closed: set<ClosureRow>, after: Tree)
    requires FindSource(c.registry.plans, p.plan) == Some(source) && TreeText(before, source.planPath) == Some(html)
    requires RowEdits(p.rows, AllTasks(Scan(c.g, html)), closed).Some?
    requires TicketWrites(c, source, before, before, AllTasks(Scan(c.g, Rowed(c, html, p, closed))), p.tickets) == Some(after)
    ensures Applied(c, before, p, closed) == Some(after[source.planPath := Utf8(Final(c, html, p, closed))])
  {}

  /** applyClosureChoices never throws on such a proposal, and leaves exactly the closed tree. */
  lemma AppliedIs(c: Context, before: Tree, p: Proposal, source: PlanSource, html: string, closed: set<ClosureRow>)
    requires Closable(c, before, p, source, html)
    ensures Applied(c, before, p, closed).Some?
    ensures ClosedTree(c, before, Applied(c, before, p, closed).value, p, source, html, closed)
  {
    RowsWrite(c.g, html, p.rows, closed);
    var tasks := AllTasks(Scan(c.g, Rowed(c, html, p, closed)));
    forall id | id in p.tickets ensures Writable(c, before, source, tasks, id) && TicketPath(source, id) != source.planPath {
      StillWritable(c, before, p, source, html, closed, id);
    }
    DistinctTickets(p.tickets);
    TicketsWritten(c, before, before, source, tasks, p.tickets);
    var after := TicketWrites(c, source, before, before, tasks, p.tickets).value;
    AppliedUnfolds(c, before, p, source, html, closed, after);
    PlanThenTickets(c, before, after, p, source, html, closed);
  }

  lemma PlanThenTickets(c: Context, before: Tree, after: Tree, p: Proposal, source: PlanSource, html: string, closed: set<ClosureRow>)
    requires OnlyTickets(c, before, before, after, source, AllTasks(Scan(c.g, Rowed(c, html, p, closed))), p.tickets)
    requires forall id :: id in p.tickets ==> TicketPath(source, id) != source.planPath
    ensures ClosedTree(c, before, after[source.planPath := Utf8(Final(c, html, p, closed))], p, source, html, closed)
  {}

  // ----- accepted

  lemma PlanFileFine(c: Context, before: Tree, after: Tree, p: Proposal, source: PlanSource, html: string, closed: set<ClosureRow>)
    requires Closable(c, before, p, source, html) && ClosedTree(c, before, after, p, source, html, closed)
    ensures source.planPath in before && Check(c, before, after, source.planPath).Fine?
  {
    SourceIsPlan(c, p, source);
    FinalIsRewriting(c, html, p, closed);
    PlanRewriteAccepted(c, source.planPath, html, Mapped(Tokens(Scan(c.g, Rowed(c, html, p, closed))), FinalMarks(c, html, p, closed)));
  }

  lemma TicketFileFine(c: Context, before: Tree, after: Tree, p: Proposal, source: PlanSource, html: string, closed: set<ClosureRow>, id: string)
    requires Closable(c, before, p, source, html) && ClosedTree(c, before, after, p, source, html, closed) && id in p.tickets
    ensures TicketPath(source, id) in before && TicketPath(source, id) in after && Check(c, before, after, TicketPath(source, id)).Fine?
  {
    var path, tasks := TicketPath(source, id), AllTasks(Scan(c.g, Rowed(c, html, p, closed)));
    assert TicketFits(c, before, source, html, id) && Writable(c, before, source, tasks, id);
    SourceIsPlan(c, p, source);
    TicketNamedIff(source, path);
    assert IsTicket(c.registry, path);
    var text := TreeText(before, path).value;
    TicketRewriteAccepted(c, path, text, c.read(text, false).value, StateFor(Numbered(tasks, TicketNumber(id).value)[0]));
  }

  lemma EveryFileFine(c: Context, before: Tree, after: Tree, p: Proposal, source: PlanSource, html: string, closed: set<ClosureRow>, path: string)
    requires Closable(c, before, p, source, html) && ClosedTree(c, before, after, p, source, html, closed)
    ensures path in before <==> path in after
    ensures path in before && path in after ==> Check(c, before, after, path).Fine?
  {
    if path == source.planPath {
      PlanFileFine(c, before, after, p, source, html, closed);
    } else if id :| id in p.tickets && path == TicketPath(source, id) {
      TicketFileFine(c, before, after, p, source, html, closed, id);
    }
  }

  /**
   The tree applyClosureChoices writes is never refused for a path, a mode, content or a vocabulary: the proof
   accepts it exactly when the written tree satisfies the agreement rules.
  */
  lemma WrittenTreeIsAccepted(c: Context, before: Tree, p: Proposal, source: PlanSource, html: string, closed: set<ClosureRow>,
                              modes: Option<Modes>, paths: seq<string>)
    requires Closable(c, before, p, source, html)
    requires forall path :: path in before ==> ModeKept(modes, path)
    requires Applied(c, before, p, closed).Some? ==> forall path :: path in paths <==> path in before.Keys + Applied(c, before, p, closed).value.Keys
    ensures Applied(c, before, p, closed).Some?
    ensures Delta(c, before, Applied(c, before, p, closed).value, modes, paths).Accepted?
            <==> c.agreement(Applied(c, before, p, closed).value) == Holds
  {
    AppliedIs(c, before, p, source, html, closed);
    var after := Applied(c, before, p, closed).value;
    forall path ensures (path in before <==> path in after) && (path in before && path in after ==> Check(c, before, after, path).Fine?) {
      EveryFileFine(c, before, after, p, source, html, closed, path);
    }
    DeltaIff(c, before, after, modes, paths);
  }
}
