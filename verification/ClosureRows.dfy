/** The rows a closure writes: which tokens they are, and the plan text they leave. */
module ClosureRows {
  import opened Text
  import opened PlanScan
  import opened Splice
  import opened Sorting
  import opened ScanOrder
  import opened Rewrite
  import opened ClosureTree
  import opened ClosureDelta
  import opened ClosureWrite
  import opened EditPlan

  // ----- a row token carries its task's number and its position

  ghost predicate Indexed(task: TaskSlice) {
    forall i :: 0 <= i < |task.tokens| ==> task.tokens[i].task == Some((task.number, i))
  }

  lemma {:induction false} RowTokensIndexed(g: Grammar, html: string, offset: nat, hits: seq<Hit>, milestone: string, number: nat, row: nat, i: nat)
    requires i < |RowTokens(g, html, offset, hits, milestone, number, row)|
    ensures RowTokens(g, html, offset, hits, milestone, number, row)[i].task == Some((number, row + i))
    decreases i
  {
    var k := TokenOf(g, html, hits[0], offset, hits[0].start, milestone, Some((number, row)));
    var rest := RowTokens(g, html, offset, hits[1..], milestone, number, row + 1);
    assert RowTokens(g, html, offset, hits, milestone, number, row) == [k] + rest;
    if i > 0 { RowTokensIndexed(g, html, offset, hits[1..], milestone, number, row + 1, i - 1); }
  }

  lemma TaskAtIndexed(g: Grammar, html: string, from: nat, to: nat, number: nat, milestone: string, marker: string)
    ensures Indexed(TaskAt(g, html, from, to, number, milestone, marker))
  {
    var k := TaskAt(g, html, from, to, number, milestone, marker);
    forall i | 0 <= i < |k.tokens| ensures k.tokens[i].task == Some((k.number, i)) {
      RowTokensIndexed(g, html, from, MatchAll(g, Row, Slice(html, from, to), 0), milestone, number, 0, i);
    }
  }

  lemma {:induction false} TasksIndexed(g: Grammar, html: string, start: nat, end: nat, heads: seq<Hit>, milestone: string, marker: string)
    ensures forall k :: k in Tasks(g, html, start, end, heads, milestone, marker) ==> Indexed(k)
    decreases |heads|
  {
    if heads != [] {
      TasksIndexed(g, html, start, end, heads[1..], milestone, marker);
      TaskAtIndexed(g, html, start + heads[0].start, if |heads| > 1 then start + heads[1].start else end,
                    NumberOf(heads[0].name), milestone, marker);
    }
  }

  lemma {:induction false} SectionsIndexed(g: Grammar, html: string, heads: seq<Hit>)
    ensures forall k :: k in AllTasks(Sections(g, html, heads)) ==> Indexed(k)
    ensures forall k :: k in Milestones(Sections(g, html, heads)) ==> k.task.None?
    decreases |heads|
  {
    if heads != [] {
      SectionsIndexed(g, html, heads[1..]);
      var s := SectionOf(g, html, heads);
      TasksIndexed(g, html, heads[0].start, BlockEnd(g, html, heads),
                   MatchAll(g, Task, Slice(html, heads[0].start, BlockEnd(g, html, heads)), 0), s.head.milestone, s.head.value);
      assert Sections(g, html, heads) == [s] + Sections(g, html, heads[1..]);
      AppendStep(s, Sections(g, html, heads[1..]), [], []);
    }
  }

  lemma ScanIndexed(g: Grammar, html: string)
    ensures forall k :: k in AllTasks(Scan(g, html)) ==> Indexed(k)
    ensures forall k :: k in Milestones(Scan(g, html)) ==> k.task.None?
  {
    SectionsIndexed(g, html, MatchAll(g, Head, html, 0));
  }

  lemma {:induction false} TokenOfTask(tasks: seq<TaskSlice>, k: Token)
    requires k in TaskTokens(tasks)
    ensures exists t :: t in tasks && k in t.tokens
  {
    if k in tasks[0].tokens {
      assert tasks[0] in tasks;
    } else {
      TokenOfTask(tasks[1..], k);
      var t :| t in tasks[1..] && k in t.tokens;
      assert t in tasks;
    }
  }

  lemma {:induction false} TaskHasTokens(tasks: seq<TaskSlice>, t: TaskSlice)
    requires t in tasks
    ensures forall k :: k in t.tokens ==> k in TaskTokens(tasks)
  {
    if t != tasks[0] {
      assert t in tasks[1..];
      TaskHasTokens(tasks[1..], t);
    }
  }

  lemma {:induction false} NumberedIff(tasks: seq<TaskSlice>, n: nat)
    ensures forall t :: t in Numbered(tasks, n) <==> t in tasks && t.number == n
  {
    if tasks != [] {
      NumberedIff(tasks[1..], n);
      assert tasks == [tasks[0]] + tasks[1..];
    }
  }

  // ----- the rows of a proposal

  /** Every row names a token of the one task with its number, and no two rows name the same one. */
  ghost predicate RowsGood(rows: seq<ClosureRow>, tasks: seq<TaskSlice>) {
    && (forall r :: r in rows ==> RowNames(r, tasks))
    && (forall i, j :: 0 <= i < j < |rows| ==> rows[i].number != rows[j].number || rows[i].index != rows[j].index)
  }

  ghost predicate RowNames(r: ClosureRow, tasks: seq<TaskSlice>) {
    |Numbered(tasks, r.number)| == 1 && r.index < |Numbered(tasks, r.number)[0].tokens|
  }

  function TokenFor(r: ClosureRow, tasks: seq<TaskSlice>): Token
    requires RowNames(r, tasks)
  {
    Numbered(tasks, r.number)[0].tokens[r.index]
  }

  /** The value each token is given: a closed row's is x, every other token keeps its own. */
  function CloseRows(rows: seq<ClosureRow>, closed: set<ClosureRow>): Token -> string {
    (k: Token) => if IsClosed(k, rows, closed) then "x" else k.value
  }

  predicate IsClosed(k: Token, rows: seq<ClosureRow>, closed: set<ClosureRow>) {
    k.task.Some? && exists r :: r in rows && r in closed && k.task.value == (r.number, r.index)
  }

  lemma TokenForIs(r: ClosureRow, tasks: seq<TaskSlice>)
    requires RowNames(r, tasks) && forall t :: t in tasks ==> Indexed(t)
    ensures TokenFor(r, tasks) in TaskTokens(tasks)
    ensures TokenFor(r, tasks).task == Some((r.number, r.index))
    ensures forall k :: k in TaskTokens(tasks) && k.task == Some((r.number, r.index)) ==> k == TokenFor(r, tasks)
  {
    var t := Numbered(tasks, r.number)[0];
    NumberedIff(tasks, r.number);
    assert t in Numbered(tasks, r.number);
    TaskHasTokens(tasks, t);
    forall k | k in TaskTokens(tasks) && k.task == Some((r.number, r.index)) ensures k == TokenFor(r, tasks) {
      TokenOfTask(tasks, k);
      var u :| u in tasks && k in u.tokens;
      var i :| 0 <= i < |u.tokens| && u.tokens[i] == k;
      assert Indexed(u);
      assert u in Numbered(tasks, r.number);
    }
  }

  function EditOfRow(r: ClosureRow, tasks: seq<TaskSlice>, closed: set<ClosureRow>): Edit
    requires RowNames(r, tasks)
  {
    EditFor(TokenFor(r, tasks), if r in closed then "x" else TokenFor(r, tasks).value)
  }

  lemma {:induction false} RowEditsAre(rows: seq<ClosureRow>, tasks: seq<TaskSlice>, closed: set<ClosureRow>)
    requires forall r :: r in rows ==> RowNames(r, tasks)
    ensures var e := RowEdits(rows, tasks, closed);
      e.Some? && |e.value| == |rows| && forall i :: 0 <= i < |rows| ==> e.value[i] == EditOfRow(rows[i], tasks, closed)
  {
    if rows != [] {
      assert rows[0] in rows;
      forall r | r in rows[1..] ensures r in rows {}
      RowEditsAre(rows[1..], tasks, closed);
    }
  }

  lemma ClosedAs(rows: seq<ClosureRow>, i: nat, tasks: seq<TaskSlice>, closed: set<ClosureRow>)
    requires i < |rows| && RowsGood(rows, tasks) && forall t :: t in tasks ==> Indexed(t)
    ensures RowNames(rows[i], tasks)
    ensures CloseRows(rows, closed)(TokenFor(rows[i], tasks)) == EditOfRow(rows[i], tasks, closed).value
  {
    assert rows[i] in rows;
    TokenForIs(rows[i], tasks);
    var k := TokenFor(rows[i], tasks);
    if IsClosed(k, rows, closed) {
      var r :| r in rows && r in closed && k.task.value == (r.number, r.index);
      var j :| 0 <= j < |rows| && rows[j] == r;
      assert j == i;
    }
  }

  /** The substitutions a proposal's rows make write exactly the closed rows' values. */
  lemma RowsWrite(g: Grammar, html: string, rows: seq<ClosureRow>, closed: set<ClosureRow>)
    requires Readable(g, html) && RowsGood(rows, AllTasks(Scan(g, html)))
    ensures RowEdits(rows, AllTasks(Scan(g, html)), closed).Some?
    ensures Writes(Tokens(Scan(g, html)), RowEdits(rows, AllTasks(Scan(g, html)), closed).value, CloseRows(rows, closed))
  {
    var tasks, tokens, f := AllTasks(Scan(g, html)), Tokens(Scan(g, html)), CloseRows(rows, closed);
    RowEditsAre(rows, tasks, closed);
    var edits := RowEdits(rows, tasks, closed).value;
    ScanIndexed(g, html);
    ListedTokens(Scan(g, html));
    PlanIsLaid(g, html);
    LaidNeverTie(html, tokens);
    forall e | e in edits ensures ThroughToken(tokens, e, f) {
      var i :| 0 <= i < |edits| && edits[i] == e;
      ClosedAs(rows, i, tasks, closed);
      TokenForIs(rows[i], tasks);
      assert e == EditFor(TokenFor(rows[i], tasks), f(TokenFor(rows[i], tasks)));
    }
    forall i, j | 0 <= i < j < |edits| ensures StartOf()(edits[i]) != StartOf()(edits[j]) {
      assert rows[i] in rows && rows[j] in rows;
      TokenForIs(rows[i], tasks);
      TokenForIs(rows[j], tasks);
    }
    forall k | k in tokens ensures f(k) == k.value || EditFor(k, f(k)) in edits {
      if f(k) != k.value {
        MissesNone(g, html, rows, closed, edits, k);
      }
    }
  }

  lemma MissesNone(g: Grammar, html: string, rows: seq<ClosureRow>, closed: set<ClosureRow>, edits: seq<Edit>, k: Token)
    requires RowsGood(rows, AllTasks(Scan(g, html))) && RowEdits(rows, AllTasks(Scan(g, html)), closed) == Some(edits)
    requires k in Tokens(Scan(g, html)) && IsClosed(k, rows, closed)
    ensures EditFor(k, CloseRows(rows, closed)(k)) in edits
  {
    var tasks := AllTasks(Scan(g, html));
    RowEditsAre(rows, tasks, closed);
    ScanIndexed(g, html);
    ListedTokens(Scan(g, html));
    var r :| r in rows && r in closed && k.task.value == (r.number, r.index);
    TokenForIs(r, tasks);
    assert k == TokenFor(r, tasks);
    var i :| 0 <= i < |rows| && rows[i] == r;
    assert edits[i] == EditFor(k, "x");
  }

  // ----- a proposal's rows are good

  ghost predicate DistinctNumbers(tickets: seq<string>) {
    forall i, j :: 0 <= i < j < |tickets| ==> TicketNumber(tickets[i]) != TicketNumber(tickets[j])
  }

  lemma {:induction false} RowsOfAre(path: string, ticket: string, number: nat, tokens: seq<Token>, from: nat)
    requires forall i :: 0 <= i < |tokens| ==> tokens[i].task == Some((number, from + i))
    ensures var rows := RowsOf(path, ticket, number, tokens);
      forall i :: 0 <= i < |rows| ==> rows[i] == ClosureRow(path, ticket, number, from + i, tokens[i].value)
  {
    if tokens != [] {
      forall i | 0 <= i < |tokens[1..]| ensures tokens[1..][i].task == Some((number, from + 1 + i)) {
        assert tokens[1..][i] == tokens[i + 1];
      }
      RowsOfAre(path, ticket, number, tokens[1..], from + 1);
    }
  }

  lemma {:induction false} ProposedRowsGood(c: Context, tree: Tree, source: PlanSource, tasks: seq<TaskSlice>, tickets: seq<string>)
    requires forall t :: t in tasks ==> Indexed(t)
    requires ProposedRows(c, tree, source, tasks, tickets).Some? && DistinctNumbers(tickets)
    ensures RowsGood(ProposedRows(c, tree, source, tasks, tickets).value, tasks)
    ensures forall id :: id in tickets ==> Resolves(c, tree, source, tasks, id)
    ensures forall r :: r in ProposedRows(c, tree, source, tasks, tickets).value ==> exists id :: id in tickets && TicketNumber(id) == Some(r.number)
  {
    if tickets != [] {
      var id, rest := tickets[0], tickets[1..];
      forall i, j | 0 <= i < j < |rest| ensures TicketNumber(rest[i]) != TicketNumber(rest[j]) {
        assert TicketNumber(tickets[i + 1]) != TicketNumber(tickets[j + 1]);
      }
      ProposedRowsGood(c, tree, source, tasks, rest);
      var n := TicketNumber(id).value;
      var task := Numbered(tasks, n)[0];
      NumberedIff(tasks, n);
      assert task in Numbered(tasks, n);
      RowsOfAre(source.planPath, id, n, task.tokens, 0);
      var own, later := RowsOf(source.planPath, id, n, task.tokens), ProposedRows(c, tree, source, tasks, rest).value;
      forall r | r in later ensures r.number != n && exists t :: t in tickets && TicketNumber(t) == Some(r.number) {
        var t :| t in rest && TicketNumber(t) == Some(r.number);
        var j :| 0 <= j < |rest| && rest[j] == t;
        assert TicketNumber(tickets[0]) != TicketNumber(tickets[j + 1]);
        assert t in tickets;
      }
      GoodAppend(own, later, tasks, n);
      forall r | r in own + later ensures exists t :: t in tickets && TicketNumber(t) == Some(r.number) {
        if r in own { assert id in tickets; }
      }
    }
  }

  lemma GoodAppend(own: seq<ClosureRow>, later: seq<ClosureRow>, tasks: seq<TaskSlice>, n: nat)
    requires RowsGood(later, tasks) && forall r :: r in later ==> r.number != n
    requires |Numbered(tasks, n)| == 1 && |own| == |Numbered(tasks, n)[0].tokens|
    requires forall i :: 0 <= i < |own| ==> own[i].number == n && own[i].index == i
    ensures RowsGood(own + later, tasks)
  {
    var all := own + later;
    forall r | r in all ensures RowNames(r, tasks) {}
    forall i, j | 0 <= i < j < |all| ensures all[i].number != all[j].number || all[i].index != all[j].index {
      if j >= |own| {
        assert all[j] == later[j - |own|] && all[j] in later;
        if i >= |own| { assert all[i] == later[i - |own|]; }
      }
    }
  }
}
