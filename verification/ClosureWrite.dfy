/** Proposing a closure from a selection of tickets, and writing the owner's choices into the tree. */
module ClosureWrite {
  import opened Text
  import opened PlanScan
  import opened Splice
  import opened Sorting
  import opened ClosureTree
  import opened ClosureDelta

  datatype ClosureRow = ClosureRow(path: string, ticket: string, number: nat, index: nat, marker: string)
  datatype Proposal = Proposal(plan: string, tickets: seq<string>, rows: seq<ClosureRow>, notClosable: seq<string>)

  /** The number a ticket id carries after its first letter; None for an id that carries none. */
  function TicketNumber(id: string): Option<nat> {
    if |id| > 1 && Digits(id, 1) == id[1..] then Some(NumberOf(id[1..])) else None
  }

  function FindSource(plans: seq<PlanSource>, planLabel: string): Option<PlanSource> {
    if plans == [] then None
    else if plans[0].planLabel == planLabel then Some(plans[0])
    else FindSource(plans[1..], planLabel)
  }

  function Numbered(tasks: seq<TaskSlice>, number: nat): seq<TaskSlice> {
    if tasks == [] then []
    else if tasks[0].number == number then [tasks[0]] + Numbered(tasks[1..], number)
    else Numbered(tasks[1..], number)
  }

  function RowsOf(path: string, ticket: string, number: nat, tokens: seq<Token>): (r: seq<ClosureRow>)
    ensures |r| == |tokens|
  {
    if tokens == [] then []
    else [ClosureRow(path, ticket, number, if tokens[0].task.Some? then tokens[0].task.value.1 else 0, tokens[0].value)]
         + RowsOf(path, ticket, number, tokens[1..])
  }

  /** The state a ticket's own file gives its id, where everything about it reads. */
  predicate TicketReads(c: Context, tree: Tree, source: PlanSource, id: string) {
    var path := TicketPath(source, id);
    TreeText(tree, path).Some? && c.read(TreeText(tree, path).value, false).Some?
    && c.read(TreeText(tree, path).value, false).value.id == id
  }

  /** One ticket resolves: it has exactly one task, and its file names it. */
  predicate Resolves(c: Context, tree: Tree, source: PlanSource, tasks: seq<TaskSlice>, id: string) {
    TicketNumber(id).Some? && |Numbered(tasks, TicketNumber(id).value)| == 1 && TicketReads(c, tree, source, id)
  }

  function ProposedRows(c: Context, tree: Tree, source: PlanSource, tasks: seq<TaskSlice>, tickets: seq<string>): Option<seq<ClosureRow>> {
    if tickets == [] then Some([])
    else if !Resolves(c, tree, source, tasks, tickets[0]) then None
    else
      match ProposedRows(c, tree, source, tasks, tickets[1..])
      case None => None
      case Some(rest) =>
        var number := TicketNumber(tickets[0]).value;
        Some(RowsOf(source.planPath, tickets[0], number, Numbered(tasks, number)[0].tokens) + rest)
  }

  function Kept(tickets: seq<string>, built: Option<set<string>>, closable: bool): seq<string> {
    if tickets == [] then []
    else (if (built.None? || tickets[0] in built.value) == closable then [tickets[0]] else [])
         + Kept(tickets[1..], built, closable)
  }

  /** proposeClosure; None where it throws. A row's display text is not part of this model. */
  function Propose(c: Context, tree: Tree, planLabel: string, tickets: seq<string>, built: Option<set<string>>): Option<Proposal> {
    match FindSource(c.registry.plans, planLabel)
    case None => None
    case Some(source) =>
      match TreeText(tree, source.planPath)
      case None => None
      case Some(html) =>
        var closable := Kept(tickets, built, true);
        match ProposedRows(c, tree, source, AllTasks(Scan(c.g, html)), closable)
        case None => None
        case Some(rows) => Some(Proposal(planLabel, closable, rows, Kept(tickets, built, false)))
  }

  // ----- writing the choices

  function RowEdits(rows: seq<ClosureRow>, tasks: seq<TaskSlice>, closed: set<ClosureRow>): Option<seq<Edit>> {
    if rows == [] then Some([])
    else
      var found := Numbered(tasks, rows[0].number);
      if found == [] || rows[0].index >= |found[0].tokens| then None
      else
        var k := found[0].tokens[rows[0].index];
        match RowEdits(rows[1..], tasks, closed)
        case None => None
        case Some(rest) => Some([Edit(k.valueStart, k.valueEnd, if rows[0] in closed then "x" else k.value)] + rest)
  }

  predicate AllClosed(tokens: seq<Token>) {
    tokens != [] && forall k :: k in tokens ==> k.value == "x"
  }

  function StateFor(task: TaskSlice): string {
    if AllClosed(task.tokens) then "done" else "wip"
  }

  /** Each proposed ticket's state, from the rows of its task as they now stand. */
  function TicketWrites(c: Context, source: PlanSource, before: Tree, after: Tree, tasks: seq<TaskSlice>, tickets: seq<string>): Option<Tree>
    decreases |tickets|
  {
    if tickets == [] then Some(after)
    else
      var id := tickets[0];
      var path := TicketPath(source, id);
      if TicketNumber(id).None? || Numbered(tasks, TicketNumber(id).value) == [] || TreeText(before, path).None?
         || c.read(TreeText(before, path).value, false).None? then None
      else
        var text := TreeText(before, path).value;
        var state := StateFor(Numbered(tasks, TicketNumber(id).value)[0]);
        TicketWrites(c, source, before, after[path := Utf8(PutState(text, c.read(text, false).value, state))], tasks, tickets[1..])
  }

  function Touched(tasks: seq<TaskSlice>, tickets: seq<string>): set<string>
  {
    set id | id in tickets && TicketNumber(id).Some? && Numbered(tasks, TicketNumber(id).value) != []
      :: Numbered(tasks, TicketNumber(id).value)[0].milestone
  }

  function MarkerFor(tasks: seq<TaskSlice>, milestone: string): string {
    if forall t :: t in tasks && t.milestone == milestone ==> AllClosed(t.tokens) then "x" else "wip"
  }

  function MarkerEdits(heads: seq<Token>, tasks: seq<TaskSlice>, touched: set<string>): seq<Edit> {
    if heads == [] then []
    else (if heads[0].milestone in touched
          then [Edit(heads[0].valueStart, heads[0].valueEnd, MarkerFor(tasks, heads[0].milestone))] else [])
         + MarkerEdits(heads[1..], tasks, touched)
  }

  /** applyClosureChoices; None where a task, row or file it needs is missing. */
  function Applied(c: Context, before: Tree, proposal: Proposal, closed: set<ClosureRow>): Option<Tree> {
    match FindSource(c.registry.plans, proposal.plan)
    case None => None
    case Some(source) =>
      match TreeText(before, source.planPath)
      case None => None
      case Some(html) =>
        match RowEdits(proposal.rows, AllTasks(Scan(c.g, html)), closed)
        case None => None
        case Some(edits) =>
          var rowed := PutAll(html, Sort(edits, Descending()));
          var next := Scan(c.g, rowed);
          match TicketWrites(c, source, before, before, AllTasks(next), proposal.tickets)
          case None => None
          case Some(after) =>
            var markers := MarkerEdits(Milestones(next), AllTasks(next), Touched(AllTasks(next), proposal.tickets));
            Some(after[source.planPath := Utf8(PutAll(rowed, Sort(markers, Descending())))])
  }

  /** applyClosureChoices, with its loops over rows, tickets and milestone headings. */
  method ApplyClosureChoices(c: Context, before: Tree, proposal: Proposal, closed: set<ClosureRow>) returns (r: Option<Tree>)
    ensures r == Applied(c, before, proposal, closed)
  {
    var source := FindSource(c.registry.plans, proposal.plan);
    if source.None? { return None; }
    var html := TreeText(before, source.value.planPath);
    if html.None? { return None; }
    var _, tasks := ScanPlan(c.g, html.value);
    var edits := CollectRowEdits(proposal.rows, tasks, closed);
    if edits.None? { return None; }
    var rowed := Substitute(html.value, edits.value);
    var heads, nextTasks := ScanPlan(c.g, rowed);
    var after := WriteTickets(c, source.value, before, nextTasks, proposal.tickets);
    if after.None? { return None; }
    var markers := CollectMarkerEdits(heads, nextTasks, Touched(nextTasks, proposal.tickets));
    var final := Substitute(rowed, markers);
    return Some(after.value[source.value.planPath := Utf8(final)]);
  }

  method CollectRowEdits(rows: seq<ClosureRow>, tasks: seq<TaskSlice>, closed: set<ClosureRow>) returns (r: Option<seq<Edit>>)
    ensures r == RowEdits(rows, tasks, closed)
  {
    var substitutions := [];
    for i := 0 to |rows|
      invariant Extends(substitutions, RowEdits(rows[i..], tasks, closed), RowEdits(rows, tasks, closed))
    {
      assert rows[i..][1..] == rows[i + 1..];
      var found := Numbered(tasks, rows[i].number);
      if found == [] || rows[i].index >= |found[0].tokens| { return None; }
      var k := found[0].tokens[rows[i].index];
      substitutions := substitutions + [Edit(k.valueStart, k.valueEnd, if rows[i] in closed then "x" else k.value)];
    }
    assert rows[|rows|..] == [];
    assert RowEdits([], tasks, closed) == Some([]) && substitutions + [] == substitutions;
    return Some(substitutions);
  }

  ghost predicate Extends(found: seq<Edit>, rest: Option<seq<Edit>>, all: Option<seq<Edit>>) {
    if rest.None? then all.None? else all.Some? && all.value == found + rest.value
  }

  method WriteTickets(c: Context, source: PlanSource, before: Tree, tasks: seq<TaskSlice>, tickets: seq<string>) returns (r: Option<Tree>)
    ensures r == TicketWrites(c, source, before, before, tasks, tickets)
  {
    var after := before;
    for i := 0 to |tickets|
      invariant TicketWrites(c, source, before, after, tasks, tickets[i..]) == TicketWrites(c, source, before, before, tasks, tickets)
    {
      assert tickets[i..][1..] == tickets[i + 1..];
      var id := tickets[i];
      var path := TicketPath(source, id);
      var number, text := TicketNumber(id), TreeText(before, path);
      if number.None? || Numbered(tasks, number.value) == [] || text.None? || c.read(text.value, false).None? { return None; }
      var state := StateFor(Numbered(tasks, number.value)[0]);
      after := after[path := Utf8(PutState(text.value, c.read(text.value, false).value, state))];
    }
    assert tickets[|tickets|..] == [];
    return Some(after);
  }

  method CollectMarkerEdits(heads: seq<Token>, tasks: seq<TaskSlice>, touched: set<string>) returns (r: seq<Edit>)
    ensures r == MarkerEdits(heads, tasks, touched)
  {
    r := [];
    for i := 0 to |heads|
      invariant r + MarkerEdits(heads[i..], tasks, touched) == MarkerEdits(heads, tasks, touched)
    {
      assert heads[i..][1..] == heads[i + 1..];
      if heads[i].milestone in touched {
        r := r + [Edit(heads[i].valueStart, heads[i].valueEnd, MarkerFor(tasks, heads[i].milestone))];
      }
    }
    assert heads[|heads|..] == [];
  }
}
